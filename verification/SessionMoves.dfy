/**
 The pieces that runs of the session machine are put together from: moves of one thread, whole
 starts and cancels, and stretches of a worker's program.
 */
module SessionMoves {
  import opened Protocol
  import opened Session
  import opened SessionRuns

  /** Thread i is a worker of this kind, at this point, that has sent so many CaptureAbort commands. */
  ghost predicate At(s: System, i: nat, kind: Kind, pc: WorkerPc, aborts: nat) {
    && i < |s.threads| && s.threads[i].Worker?
    && s.threads[i].kind == kind && s.threads[i].pc == pc && s.threads[i].aborts == aborts
  }

  /** No thread has changed but thread i. */
  ghost predicate OnlyMoved(s: System, s': System, i: nat) {
    |s'.threads| == |s.threads| && forall k | 0 <= k < |s.threads| && k != i :: s'.threads[k] == s.threads[k]
  }

  /** The words and locks that the threads share. */
  datatype Shared = Shared(
    state: WorkerState, signal: bool, sensorOwner: Option<nat>, deviceOwner: Option<nat>, cancels: nat,
      timer: Option<nat>)

  function SharedOf(s: System): Shared {
    Shared(s.state, s.signal, s.sensorOwner, s.deviceOwner, s.cancels, s.timer)
  }

  /** What a move of thread i with this action does to them. */
  function SharedAfter(w: Shared, i: nat, action: Action): Shared {
    match action
    case Write(value) => w.(state := value, cancels := if value == Cancel then w.cancels + 1 else w.cancels)
    case PutSignal(flag) => w.(signal := flag)
    case Acquire(lock) => if lock.Sensor? then w.(sensorOwner := Some(i)) else w.(deviceOwner := Some(i))
    case Unlock(lock) => if lock.Sensor? then w.(sensorOwner := None) else w.(deviceOwner := None)
    case Wait => w.(sensorOwner := None)
    case DropTimer => w.(timer := None)
    case _ => w
  }

  /** The actions that only need a free lock, or the end of a wait. */
  predicate CanMove(w: Shared, action: Action, bit: bool) {
    match action
    case Acquire(lock) => (if lock.Sensor? then w.sensorOwner else w.deviceOwner) == None
    case Sleeping => bit
    case Notify | Create(_) | Join(_) | Halt => false
    case _ => true
  }

  lemma Step(s: System, i: nat, input: Input, action: Action)
    requires i < |s.threads| && ActionOf(s.threads[i]) == action && CanMove(SharedOf(s), action, input.bit)
    ensures var l := Run(i, input);
      && Allowed(s, l) && OnlyMoved(s, After(s, l), i)
      && SharedOf(After(s, l)) == SharedAfter(SharedOf(s), i, action)
      && After(s, l).threads[i] == Advance(s.threads[i], SeenBy(s, input), s.cancels)
  {
    hide ActionOf, Advance;
  }

  /** One move of a thread that is not a worker. */
  lemma Turn(from: System, done: seq<Label>, s: System, i: nat, t: Thread, input: Input, action: Action, t': Thread)
    returns (labels: seq<Label>, s': System)
    requires Reaches(from, done, s) && i < |s.threads| && s.threads[i] == t
    requires ActionOf(t) == action && Advance(t, SeenBy(s, input), s.cancels) == t'
      && CanMove(SharedOf(s), action, input.bit)
    ensures Reaches(from, labels, s') && OnlyMoved(s, s', i) && s'.threads[i] == t'
    ensures SharedOf(s') == SharedAfter(SharedOf(s), i, action)
  {
    hide ActionOf, Advance, Reaches, Allowed, After;
    var l := Run(i, input);
    Step(s, i, input, action);
    s' := After(s, l);
    ReachesOne(s, l);
    ReachesJoin(from, done, s, [l], s');
    labels := done + [l];
  }

  /** What a worker does at this point when it sees this, and where it goes. */
  ghost predicate Goes(kind: Kind, pc: WorkerPc, state: WorkerState, signal: bool, reply: Reply, bit: bool,
    action: Action, pc': WorkerPc) {
    WorkerAction(pc) == action && forall timer :: WorkerNext(kind, pc, Observed(state, signal, timer, reply, bit)) == pc'
  }

  lemma WorkerAdvances(t: Thread, o: Observed, cancels: nat)
    requires t.Worker?
    ensures var t', action := Advance(t, o, cancels), WorkerAction(t.pc);
      && t'.Worker? && t'.kind == t.kind && t'.pc == WorkerNext(t.kind, t.pc, o) && ActionOf(t) == action
      && t'.aborts == if action == Send(true) then t.aborts + 1 else t.aborts
  {
    hide WorkerNext, WorkerAction;
  }

  /** One move of a worker. */
  lemma Move(from: System, done: seq<Label>, s: System, i: nat, kind: Kind, pc: WorkerPc, aborts: nat,
             reply: Reply, bit: bool, action: Action, pc': WorkerPc) returns (labels: seq<Label>, s': System)
    requires Reaches(from, done, s) && At(s, i, kind, pc, aborts)
    requires Goes(kind, pc, s.state, s.signal, reply, bit, action, pc') && CanMove(SharedOf(s), action, bit)
    ensures Reaches(from, labels, s') && OnlyMoved(s, s', i)
    ensures At(s', i, kind, pc', if action == Send(true) then aborts + 1 else aborts)
    ensures SharedOf(s') == SharedAfter(SharedOf(s), i, action)
  {
    hide WorkerAction, WorkerNext, Reaches, CanMove;
    var input := Input(reply, bit, 0);
    WorkerAdvances(s.threads[i], SeenBy(s, input), s.cancels);
    labels, s' := Turn(from, done, s, i, s.threads[i], input, action,
      Advance(s.threads[i], SeenBy(s, input), s.cancels));
  }

  // ----- a start

  /** A call comes in. */
  lemma Call(from: System, done: seq<Label>, s: System, t: Thread) returns (labels: seq<Label>, s': System)
    requires Reaches(from, done, s) && IsCall(t)
    ensures Reaches(from, labels, s') && SharedOf(s') == SharedOf(s) && s'.threads == s.threads + [t]
  {
    hide Reaches, IsCall;
    var l := Arrive(t);
    s' := After(s, l);
    ReachesOne(s, l);
    ReachesJoin(from, done, s, [l], s');
    labels := done + [l];
  }

  const OK := Input(Rejected, true, 0)
  const NO := Input(Rejected, false, 0)

  /** The threads of s are still there, followed by these. */
  ghost predicate Joined(s: System, s': System, more: seq<Thread>) {
    |s'.threads| == |s.threads| + |more| && s'.threads == s.threads + more
  }

  /** A start finds the state IDLE and is about to write its mark. */
  lemma Commits(from: System, done: seq<Label>, s: System, kind: Kind) returns (labels: seq<Label>, s': System)
    requires Reaches(from, done, s) && s.state == Idle && s.deviceOwner == None
    ensures Reaches(from, labels, s') && Joined(s, s', [Starter(kind, SetMark)])
    ensures SharedOf(s') == SharedOf(s).(deviceOwner := Some(|s.threads|))
  {
    hide Reaches;
    var n := |s.threads|;
    labels, s' := Call(from, done, s, Starter(kind, LockDevice));
    labels, s' := Turn(from, labels, s', n, Starter(kind, LockDevice), OK, Acquire(Lock.Device),
                       Starter(kind, if kind.Authentication? then Reading(0) else LookForSlot));
    labels, s' := ReachesReading(from, labels, s', n, kind);
    labels, s' := Turn(from, labels, s', n, Starter(kind, Reading(4)), OK, Read, Starter(kind, SetMark));
    assert s'.threads == s.threads + [Starter(kind, SetMark)];
  }

  /** An enrolment that finds no free slot. */
  lemma FindsNoSpace(from: System, done: seq<Label>, s: System) returns (labels: seq<Label>, s': System)
    requires Reaches(from, done, s) && s.deviceOwner == None
    ensures Reaches(from, labels, s') && Joined(s, s', [Starter(Enrolment, NoSpace)])
    ensures SharedOf(s') == SharedOf(s).(deviceOwner := Some(|s.threads|))
  {
    hide Reaches;
    var n := |s.threads|;
    labels, s' := Call(from, done, s, Starter(Enrolment, LockDevice));
    labels, s' := Turn(from, labels, s', n, Starter(Enrolment, LockDevice), OK, Acquire(Lock.Device),
      Starter(Enrolment, LookForSlot));
    labels, s' := Turn(from, labels, s', n, Starter(Enrolment, LookForSlot), NO, Choose, Starter(Enrolment, NoSpace));
    assert s'.threads == s.threads + [Starter(Enrolment, NoSpace)];
  }

  lemma ReachesReading(from: System, done: seq<Label>, s: System, n: nat, kind: Kind)
    returns (labels: seq<Label>, s': System)
    requires Reaches(from, done, s) && n < |s.threads|
    requires s.threads[n] == Starter(kind, if kind.Authentication? then Reading(0) else LookForSlot)
    ensures Reaches(from, labels, s') && SharedOf(s') == SharedOf(s)
    ensures OnlyMoved(s, s', n) && s'.threads[n] == Starter(kind, Reading(4))
  {
    hide Reaches;
    if kind.Authentication? {
      labels, s' := Turn(from, done, s, n, Starter(kind, Reading(0)), OK, Read, Starter(kind, Reading(1)));
      labels, s' := Turn(from, labels, s', n, Starter(kind, Reading(1)), OK, Read, Starter(kind, Reading(2)));
      labels, s' := Turn(from, labels, s', n, Starter(kind, Reading(2)), OK, Read, Starter(kind, Reading(3)));
      labels, s' := Turn(from, labels, s', n, Starter(kind, Reading(3)), OK, Read, Starter(kind, Reading(4)));
    } else {
      labels, s' := Turn(from, done, s, n, Starter(kind, LookForSlot), OK, Choose, Starter(kind, Reading(4)));
    }
  }

  /** A thread is created. */
  lemma Creates(from: System, done: seq<Label>, s: System, n: nat, t: Thread, child: Thread, t': Thread)
    returns (labels: seq<Label>, s': System)
    requires Reaches(from, done, s) && n < |s.threads| && s.threads[n] == t
    requires ActionOf(t) == Create(child) && Advance(t, SeenBy(s, OK), s.cancels) == t'
    ensures Reaches(from, labels, s') && s'.threads == s.threads[n := t'] + [child]
    ensures SharedOf(s') == SharedOf(s).(timer := if child.Timer? then Some(|s.threads|) else s.timer)
  {
    hide Reaches, ActionOf, Advance;
    var l := Run(n, OK);
    s' := After(s, l);
    assert s'.threads == s.threads[n := t'] + [child];
    ReachesOne(s, l);
    ReachesJoin(from, done, s, [l], s');
    labels := done + [l];
  }

  const STARTED_AUTHENTICATION := [Starter(Authentication, Returned), Worker(Authentication, Begin, 0, 0, 0, 0)]
  const STARTED_ENROLMENT := [Starter(Enrolment, Returned), Worker(Enrolment, Begin, 0, 0, 0, 0)]

  function Started(kind: Kind): seq<Thread> {
    if kind.Authentication? then STARTED_AUTHENTICATION else STARTED_ENROLMENT
  }

  /** A start up to its worker. */
  lemma Spawns(from: System, done: seq<Label>, s: System, kind: Kind) returns (labels: seq<Label>, s': System)
    requires Reaches(from, done, s) && s.state == Idle && s.deviceOwner == None
    ensures Reaches(from, labels, s')
    ensures Joined(s, s', [Starter(kind, if kind.Enrolment? then SpawnTimer else UnlockDevice),
      Worker(kind, Begin, 0, 0, 0, 0)])
    ensures SharedOf(s') == SharedOf(s).(state := Mark(kind), deviceOwner := Some(|s.threads|))
  {
    hide Reaches;
    var n, w := |s.threads|, Worker(kind, Begin, 0, 0, 0, 0);
    labels, s' := Commits(from, done, s, kind);
    labels, s' := Turn(from, labels, s', n, Starter(kind, SetMark), OK, Write(Mark(kind)), Starter(kind, Init));
    labels, s' := Turn(from, labels, s', n, Starter(kind, Init), OK, Choose, Starter(kind, Spawn));
    assert s'.threads == s.threads + [Starter(kind, Spawn)];
    labels, s' := Creates(from, labels, s', n, Starter(kind, Spawn), w,
                          Starter(kind, if kind.Enrolment? then SpawnTimer else UnlockDevice));
  }

  /** A whole start: the call, its mark and its worker, without a timeout. */
  lemma Starts(from: System, done: seq<Label>, s: System, kind: Kind) returns (labels: seq<Label>, s': System)
    requires Reaches(from, done, s) && s.state == Idle && s.deviceOwner == None
    ensures Reaches(from, labels, s') && Joined(s, s', Started(kind))
    ensures SharedOf(s') == SharedOf(s).(state := Mark(kind))
  {
    hide Reaches;
    var n := |s.threads|;
    labels, s' := Spawns(from, done, s, kind);
    if kind.Enrolment? {
      labels, s' := SkipsTimer(from, labels, s', n);
    }
    labels, s' := Turn(from, labels, s', n, Starter(kind, UnlockDevice), OK, Unlock(Lock.Device),
      Starter(kind, Returned));
    assert s'.threads == s.threads + Started(kind);
  }

  /** An enrolment with a timeout. */
  lemma StartsTimed(from: System, done: seq<Label>, s: System) returns (labels: seq<Label>, s': System)
    requires Reaches(from, done, s) && s.state == Idle && s.deviceOwner == None
    ensures Reaches(from, labels, s') && Joined(s, s', STARTED_ENROLMENT + [Timer(TimerWaiting)])
    ensures SharedOf(s') == SharedOf(s).(state := WorkerState.Enroll, timer := Some(|s.threads| + 2))
  {
    hide Reaches;
    var n := |s.threads|;
    labels, s' := Spawns(from, done, s, Enrolment);
    labels, s' := Creates(from, labels, s', n, Starter(Enrolment, SpawnTimer), Timer(TimerWaiting),
      Starter(Enrolment, UnlockDevice));
    labels, s' := Turn(from, labels, s', n, Starter(Enrolment, UnlockDevice), OK, Unlock(Lock.Device),
      Starter(Enrolment, Returned));
    assert s'.threads == s.threads + STARTED_ENROLMENT + [Timer(TimerWaiting)];
  }

  /** An enrolment without a timeout. */
  lemma SkipsTimer(from: System, done: seq<Label>, s: System, n: nat) returns (labels: seq<Label>, s': System)
    requires Reaches(from, done, s) && n < |s.threads| && s.threads[n] == Starter(Enrolment, SpawnTimer)
    ensures Reaches(from, labels, s') && SharedOf(s') == SharedOf(s)
    ensures OnlyMoved(s, s', n) && s'.threads[n] == Starter(Enrolment, UnlockDevice)
  {
    hide Reaches, Advance;
    var l := Run(n, NO);
    SkipsTimerStep();
    s' := After(s, l);
    ReachesOne(s, l);
    ReachesJoin(from, done, s, [l], s');
    labels := done + [l];
  }

  lemma SkipsTimerStep()
    ensures forall o, cancels :: Advance(Starter(Enrolment, SpawnTimer), o, cancels) == Starter(Enrolment, UnlockDevice)
  {
  }

  // ----- a cancel

  /** A cancel arrives, finds a session, and is about to write CANCEL. */
  lemma Cancels(from: System, done: seq<Label>, s: System) returns (labels: seq<Label>, s': System)
    requires Reaches(from, done, s) && s.timer == None && (s.state == Scan || s.state == WorkerState.Enroll)
    ensures Reaches(from, labels, s') && Joined(s, s', [Canceller(SetCancel)]) && SharedOf(s') == SharedOf(s)
  {
    hide Reaches;
    var n := |s.threads|;
    labels, s' := Call(from, done, s, Canceller(Handshake));
    labels, s' := Turn(from, labels, s', n, Canceller(Handshake), OK, ReadTimer, Canceller(CancelFirst));
    labels, s' := Turn(from, labels, s', n, Canceller(CancelFirst), OK, Read, Canceller(CancelSecond));
    labels, s' := Turn(from, labels, s', n, Canceller(CancelSecond), OK, Read, Canceller(SetCancel));
    assert s'.threads == s.threads + [Canceller(SetCancel)];
  }

  /** And writes it. */
  lemma Cancelled(from: System, done: seq<Label>, s: System) returns (labels: seq<Label>, s': System)
    requires Reaches(from, done, s) && s.timer == None && (s.state == Scan || s.state == WorkerState.Enroll)
    ensures Reaches(from, labels, s') && Joined(s, s', [Canceller(LockSensor)])
    ensures SharedOf(s') == SharedOf(s).(state := Cancel, cancels := s.cancels + 1)
  {
    hide Reaches;
    var n := |s.threads|;
    labels, s' := Cancels(from, done, s);
    labels, s' := Turn(from, labels, s', n, Canceller(SetCancel), OK, Write(Cancel), Canceller(LockSensor));
    assert s'.threads == s.threads + [Canceller(LockSensor)];
  }

  // ----- a worker

  lemma GoesToCapture(kind: Kind)
    ensures kind == Enrolment ==>
      && Goes(kind, Begin, WorkerState.Enroll, false, Accepted(true), false, Send(false), Begin2)
      && Goes(kind, Begin2, WorkerState.Enroll, false, Accepted(true), false, Send(false), Top)
    ensures kind == Authentication ==> Goes(kind, Begin, Scan, false, Accepted(true), false, Send(false), Top)
    ensures Goes(kind, Top, Mark(kind), false, Accepted(true), false, Read, CaptureStart)
  {
  }

  lemma GoesToWait(kind: Kind, state: WorkerState)
    ensures Goes(kind, CaptureStart, state, false, Accepted(true), false, Send(false), UpdateCal)
    ensures Goes(kind, UpdateCal, state, false, Accepted(true), false, Send(false), ArmLock)
    ensures Goes(kind, ArmLock, state, false, Accepted(true), false, Acquire(Sensor), ArmUnlock)
    ensures Goes(kind, ArmUnlock, state, false, Accepted(true), false, Unlock(Sensor), WaitLock)
  {
  }

  /** A new worker comes to its capture. */
  lemma ToCaptureStart(from: System, done: seq<Label>, s: System, i: nat, kind: Kind)
    returns (labels: seq<Label>, s': System)
    requires Reaches(from, done, s) && At(s, i, kind, Begin, 0) && s.state == Mark(kind) && !s.signal
    ensures Reaches(from, labels, s') && OnlyMoved(s, s', i) && At(s', i, kind, CaptureStart, 0)
      && SharedOf(s') == SharedOf(s)
  {
    hide Reaches, Goes, At;
    GoesToCapture(kind);
    if kind == Enrolment {
      labels, s' := Move(from, done, s, i, kind, Begin, 0, Accepted(true), false, Send(false), Begin2);
      labels, s' := Move(from, labels, s', i, kind, Begin2, 0, Accepted(true), false, Send(false), Top);
    } else {
      labels, s' := Move(from, done, s, i, kind, Begin, 0, Accepted(true), false, Send(false), Top);
    }
    labels, s' := Move(from, labels, s', i, kind, Top, 0, Accepted(true), false, Read, CaptureStart);
  }

  /** A capturing worker comes to its wait. */
  lemma ToWaitLock(from: System, done: seq<Label>, s: System, i: nat, kind: Kind, aborts: nat)
    returns (labels: seq<Label>, s': System)
    requires Reaches(from, done, s) && At(s, i, kind, CaptureStart, aborts) && !s.signal && s.sensorOwner == None
    ensures Reaches(from, labels, s') && OnlyMoved(s, s', i) && At(s', i, kind, WaitLock, aborts)
      && SharedOf(s') == SharedOf(s)
  {
    hide Reaches, Goes, At;
    GoesToWait(kind, s.state);
    labels, s' := Move(from, done, s, i, kind, CaptureStart, aborts, Accepted(true), false, Send(false), UpdateCal);
    labels, s' := Move(from, labels, s', i, kind, UpdateCal, aborts, Accepted(true), false, Send(false), ArmLock);
    labels, s' := Move(from, labels, s', i, kind, ArmLock, aborts, Accepted(true), false, Acquire(Sensor), ArmUnlock);
    labels, s' := Move(from, labels, s', i, kind, ArmUnlock, aborts, Accepted(true), false, Unlock(Sensor), WaitLock);
  }

  lemma GoesToAnswer(kind: Kind)
    ensures Goes(kind, CheckFirst(Guard), Cancel, false, Rejected, false, Read, CheckSecond(Guard))
    ensures Goes(kind, CheckSecond(Guard), Cancel, false, Rejected, false, Read, CheckAbort(Guard))
  {
  }

  lemma GoesToIdle(kind: Kind)
    ensures Goes(kind, CheckAbort(Guard), Cancel, false, Rejected, false, Send(true), CheckIdle(Guard))
    ensures Goes(kind, CheckIdle(Guard), Cancel, false, Rejected, false, Write(Idle), WaitUnlock)
  {
  }

  lemma GoesIntoGuard(kind: Kind, state: WorkerState)
    ensures Goes(kind, WaitLock, state, false, Rejected, false, Acquire(Sensor), CheckFirst(Guard))
    ensures Goes(kind, Woken, state, false, Rejected, false, Acquire(Sensor), CheckFirst(Guard))
    ensures Goes(kind, WaitUnlock, state, false, Rejected, false, Unlock(Sensor), CheckFirst(AfterWait))
  {
  }

  /** In the guard a worker answers a CANCEL and writes IDLE. */
  lemma AnswersInTheGuard(from: System, done: seq<Label>, s: System, i: nat, kind: Kind, pc: WorkerPc, aborts: nat)
    returns (labels: seq<Label>, s': System)
    requires Reaches(from, done, s) && At(s, i, kind, pc, aborts) && (pc == WaitLock || pc == Woken)
    requires s.state == Cancel && !s.signal && s.sensorOwner == None
    ensures Reaches(from, labels, s') && OnlyMoved(s, s', i) && At(s', i, kind, WaitUnlock, aborts + 1)
    ensures SharedOf(s') == SharedOf(s).(state := Idle, sensorOwner := Some(i))
  {
    hide Reaches, Goes, At;
    GoesIntoGuard(kind, Cancel);
    GoesToAnswer(kind);
    GoesToIdle(kind);
    labels, s' := Move(from, done, s, i, kind, pc, aborts, Rejected, false, Acquire(Sensor), CheckFirst(Guard));
    labels, s' := Move(from, labels, s', i, kind, CheckFirst(Guard), aborts, Rejected, false, Read, CheckSecond(Guard));
    labels, s' := Move(from, labels, s', i, kind, CheckSecond(Guard), aborts, Rejected, false, Read, CheckAbort(Guard));
    labels, s' := Move(from, labels, s', i, kind, CheckAbort(Guard), aborts, Rejected, false, Send(true),
      CheckIdle(Guard));
    labels, s' := Move(from, labels, s', i, kind, CheckIdle(Guard), aborts + 1, Rejected, false, Write(Idle),
      WaitUnlock);
  }

  lemma GoesPastTheWait(kind: Kind)
    ensures Goes(kind, CheckFirst(AfterWait), Scan, false, Rejected, false, Read, CheckSecond(AfterWait))
    ensures Goes(kind, CheckSecond(AfterWait), Scan, false, Rejected, false, Read, ClearLock)
  {
  }

  lemma GoesToReadLoop(kind: Kind)
    ensures Goes(kind, ClearLock, Scan, false, Rejected, false, Acquire(Sensor), ClearSignal)
    ensures Goes(kind, ClearSignal, Scan, false, Rejected, false, PutSignal(false), ClearUnlock)
    ensures Goes(kind, ClearUnlock, Scan, false, Rejected, false, Unlock(Sensor), CheckFirst(ReadLoop))
  {
  }

  /** A worker that has left the guard finds a new session and goes on to its read loop. */
  lemma GoesOnCapturing(from: System, done: seq<Label>, s: System, i: nat, kind: Kind, aborts: nat)
    returns (labels: seq<Label>, s': System)
    requires Reaches(from, done, s) && At(s, i, kind, WaitUnlock, aborts) && s.state == Scan && !s.signal
      && s.sensorOwner == Some(i)
    ensures Reaches(from, labels, s') && OnlyMoved(s, s', i) && At(s', i, kind, CheckFirst(ReadLoop), aborts)
    ensures SharedOf(s') == SharedOf(s).(sensorOwner := None)
  {
    hide Reaches, Goes, At;
    GoesIntoGuard(kind, Scan);
    GoesPastTheWait(kind);
    GoesToReadLoop(kind);
    labels, s' := Move(from, done, s, i, kind, WaitUnlock, aborts, Rejected, false, Unlock(Sensor),
      CheckFirst(AfterWait));
    labels, s' := Move(from, labels, s', i, kind, CheckFirst(AfterWait), aborts, Rejected, false, Read,
      CheckSecond(AfterWait));
    labels, s' := Move(from, labels, s', i, kind, CheckSecond(AfterWait), aborts, Rejected, false, Read, ClearLock);
    labels, s' := Move(from, labels, s', i, kind, ClearLock, aborts, Rejected, false, Acquire(Sensor), ClearSignal);
    labels, s' := Move(from, labels, s', i, kind, ClearSignal, aborts, Rejected, false, PutSignal(false), ClearUnlock);
    labels, s' := Move(from, labels, s', i, kind, ClearUnlock, aborts, Rejected, false, Unlock(Sensor),
      CheckFirst(ReadLoop));
  }

  lemma GoesToSleep(kind: Kind, state: WorkerState)
    requires state == Scan || state == WorkerState.Enroll
    ensures Goes(kind, CheckFirst(Guard), state, false, Rejected, false, Read, CheckSecond(Guard))
    ensures Goes(kind, CheckSecond(Guard), state, false, Rejected, false, Read, TestSignal)
    ensures Goes(kind, TestSignal, state, false, Rejected, false, ReadSignal, Doze)
    ensures Goes(kind, Doze, state, false, Rejected, false, Wait, Asleep)
  {
  }

  /** A worker waits for the sensor, and falls asleep. */
  lemma FallsAsleep(from: System, done: seq<Label>, s: System, i: nat, kind: Kind, aborts: nat)
    returns (labels: seq<Label>, s': System)
    requires Reaches(from, done, s) && At(s, i, kind, WaitLock, aborts) && !s.signal && s.sensorOwner == None
    requires s.state == Scan || s.state == WorkerState.Enroll
    ensures Reaches(from, labels, s') && OnlyMoved(s, s', i) && At(s', i, kind, Asleep, aborts)
      && SharedOf(s') == SharedOf(s)
  {
    hide Reaches, Goes, At;
    GoesIntoGuard(kind, s.state);
    GoesToSleep(kind, s.state);
    labels, s' := Move(from, done, s, i, kind, WaitLock, aborts, Rejected, false, Acquire(Sensor), CheckFirst(Guard));
    labels, s' := Move(from, labels, s', i, kind, CheckFirst(Guard), aborts, Rejected, false, Read, CheckSecond(Guard));
    labels, s' := Move(from, labels, s', i, kind, CheckSecond(Guard), aborts, Rejected, false, Read, TestSignal);
    labels, s' := Move(from, labels, s', i, kind, TestSignal, aborts, Rejected, false, ReadSignal, Doze);
    labels, s' := Move(from, labels, s', i, kind, Doze, aborts, Rejected, false, Wait, Asleep);
  }

  /** A cancel that has written CANCEL signals a sleeper, and goes on to poll the state word. */
  lemma Signals(from: System, done: seq<Label>, s: System, n: nat, i: nat, kind: Kind, aborts: nat)
    returns (labels: seq<Label>, s': System)
    requires Reaches(from, done, s) && n < |s.threads| && s.threads[n] == Canceller(LockSensor) && s.sensorOwner == None
    requires At(s, i, kind, Asleep, aborts)
    ensures Reaches(from, labels, s') && SharedOf(s') == SharedOf(s) && |s'.threads| == |s.threads|
    ensures s'.threads[n] == Canceller(Spin) && At(s', i, kind, Woken, aborts)
    ensures forall k | 0 <= k < |s.threads| && k != n && k != i :: s'.threads[k] == s.threads[k]
  {
    hide Reaches;
    labels, s' := Turn(from, done, s, n, Canceller(LockSensor), OK, Acquire(Sensor), Canceller(SignalSensor));
    var m, l := s', Run(n, Input(Rejected, true, i));
    assert IsAsleep(m.threads[i]);
    s' := After(m, l);
    ReachesOne(m, l);
    ReachesJoin(from, labels, m, [l], s');
    labels, s' := Turn(from, labels + [l], s', n, Canceller(UnlockSensor), OK, Unlock(Sensor), Canceller(Spin));
  }

  lemma GoesToProcess(kind: Kind)
    ensures Goes(kind, CheckFirst(ReadLoop), Scan, false, Rejected, false, Read, CheckSecond(ReadLoop))
    ensures Goes(kind, CheckSecond(ReadLoop), Scan, false, Rejected, false, Read, ReadData)
    ensures Goes(kind, ReadData, Scan, false, Accepted(true), false, Send(false), ProcessData)
  {
  }

  /** The image is read. */
  lemma ReadsImage(from: System, done: seq<Label>, s: System, i: nat, kind: Kind, aborts: nat)
    returns (labels: seq<Label>, s': System)
    requires Reaches(from, done, s) && At(s, i, kind, CheckFirst(ReadLoop), aborts) && s.state == Scan && !s.signal
    ensures Reaches(from, labels, s') && OnlyMoved(s, s', i) && At(s', i, kind, ProcessData, aborts)
      && SharedOf(s') == SharedOf(s)
  {
    hide Reaches, Goes, At;
    GoesToProcess(kind);
    labels, s' := Move(from, done, s, i, kind, CheckFirst(ReadLoop), aborts, Rejected, false, Read,
      CheckSecond(ReadLoop));
    labels, s' := Move(from, labels, s', i, kind, CheckSecond(ReadLoop), aborts, Rejected, false, Read, ReadData);
    labels, s' := Move(from, labels, s', i, kind, ReadData, aborts, Accepted(true), false, Send(false), ProcessData);
  }

  lemma GoesToCaptureAgain(kind: Kind)
    ensures Goes(kind, ProcessData, Scan, false, Rejected, false, Send(false), NoticeLock(ToCapture))
    ensures Goes(kind, NoticeLock(ToCapture), Scan, false, Rejected, false, Acquire(Lock.Device),
      NoticeUnlock(ToCapture))
    ensures Goes(kind, NoticeUnlock(ToCapture), Scan, false, Rejected, false, Unlock(Lock.Device), CaptureStart)
  {
  }

  /** The image is no good, and another one is captured. */
  lemma CapturesAgain(from: System, done: seq<Label>, s: System, i: nat, kind: Kind, aborts: nat)
    returns (labels: seq<Label>, s': System)
    requires Reaches(from, done, s) && At(s, i, kind, ProcessData, aborts) && s.state == Scan && !s.signal
      && s.deviceOwner == None
    ensures Reaches(from, labels, s') && OnlyMoved(s, s', i) && At(s', i, kind, CaptureStart, aborts)
      && SharedOf(s') == SharedOf(s)
  {
    hide Reaches, Goes, At;
    GoesToCaptureAgain(kind);
    labels, s' := Move(from, done, s, i, kind, ProcessData, aborts, Rejected, false, Send(false),
      NoticeLock(ToCapture));
    labels, s' := Move(from, labels, s', i, kind, NoticeLock(ToCapture), aborts, Rejected, false,
      Acquire(Lock.Device), NoticeUnlock(ToCapture));
    labels, s' := Move(from, labels, s', i, kind, NoticeUnlock(ToCapture), aborts, Rejected, false,
      Unlock(Lock.Device), CaptureStart);
  }

  lemma GoesToAdd()
    ensures Goes(Enrolment, ProcessData, Scan, false, Accepted(false), false, Send(false), AddImage)
    ensures Goes(Enrolment, AddImage, Scan, false, Accepted(false), false, Send(false), EnrollNotice(false))
  {
  }

  lemma GoesToFinish()
    ensures Goes(Enrolment, EnrollNotice(false), Scan, false, Accepted(false), false, Choose, Top)
    ensures Goes(Enrolment, Top, Scan, false, Accepted(false), false, Read, Finish)
  {
  }

  lemma GoesToComplete()
    ensures Goes(Enrolment, Finish, Scan, false, Accepted(false), false, Send(false), Bind1)
    ensures Goes(Enrolment, Bind1, Scan, false, Accepted(false), false, Send(false), Bind2)
  {
  }

  lemma GoesToPassword()
    ensures Goes(Enrolment, Bind2, Scan, false, Accepted(false), false, Send(false), Password1)
    ensures Goes(Enrolment, Password1, Scan, false, Accepted(false), false, Send(false), Password2)
  {
  }

  /** An enrolment under the state of another session adds its image, leaves its loop and completes. */
  lemma Completes(from: System, done: seq<Label>, s: System, i: nat, aborts: nat)
    returns (labels: seq<Label>, s': System)
    requires Reaches(from, done, s) && At(s, i, Enrolment, ProcessData, aborts) && s.state == Scan && !s.signal
    ensures Reaches(from, labels, s') && OnlyMoved(s, s', i) && At(s', i, Enrolment, Password2, aborts)
      && SharedOf(s') == SharedOf(s)
  {
    hide Reaches, Goes, At;
    GoesToAdd();
    GoesToFinish();
    GoesToComplete();
    GoesToPassword();
    labels, s' := Move(from, done, s, i, Enrolment, ProcessData, aborts, Accepted(false), false, Send(false), AddImage);
    labels, s' := Move(from, labels, s', i, Enrolment, AddImage, aborts, Accepted(false), false, Send(false),
      EnrollNotice(false));
    labels, s' := Move(from, labels, s', i, Enrolment, EnrollNotice(false), aborts, Accepted(false), false, Choose,
      Top);
    labels, s' := Move(from, labels, s', i, Enrolment, Top, aborts, Accepted(false), false, Read, Finish);
    labels, s' := Move(from, labels, s', i, Enrolment, Finish, aborts, Accepted(false), false, Send(false), Bind1);
    labels, s' := Move(from, labels, s', i, Enrolment, Bind1, aborts, Accepted(false), false, Send(false), Bind2);
    labels, s' := Move(from, labels, s', i, Enrolment, Bind2, aborts, Accepted(false), false, Send(false), Password1);
    labels, s' := Move(from, labels, s', i, Enrolment, Password1, aborts, Accepted(false), false, Send(false),
      Password2);
  }

  lemma GoesToReject()
    ensures Goes(Authentication, CaptureStart, Scan, false, Rejected, false, Send(false), Match)
    ensures Goes(Authentication, Match, Scan, false, Rejected, false, Send(false), NoticeLock(ToTop))
  {
  }

  /** A capture that cannot be started is matched all the same. */
  lemma MatchesAnyway(from: System, done: seq<Label>, s: System, i: nat, aborts: nat)
    returns (labels: seq<Label>, s': System)
    requires Reaches(from, done, s) && At(s, i, Authentication, CaptureStart, aborts) && s.state == Scan && !s.signal
    ensures Reaches(from, labels, s') && OnlyMoved(s, s', i) && At(s', i, Authentication, Match, aborts)
    ensures SharedOf(s') == SharedOf(s)
  {
    hide Reaches, Goes, At;
    GoesToReject();
    labels, s' := Move(from, done, s, i, Authentication, CaptureStart, aborts, Rejected, false, Send(false), Match);
  }

  /** The match is rejected, which is to be reported. */
  lemma RejectsMatch(from: System, done: seq<Label>, s: System, i: nat, aborts: nat)
    returns (labels: seq<Label>, s': System)
    requires Reaches(from, done, s) && At(s, i, Authentication, Match, aborts) && s.state == Scan && !s.signal
    ensures Reaches(from, labels, s') && OnlyMoved(s, s', i) && At(s', i, Authentication, NoticeLock(ToTop), aborts)
    ensures SharedOf(s') == SharedOf(s)
  {
    hide Reaches, Goes, At;
    GoesToReject();
    labels, s' := Move(from, done, s, i, Authentication, Match, aborts, Rejected, false, Send(false),
      NoticeLock(ToTop));
  }

  lemma GoesToClose()
    ensures Goes(Authentication, CaptureStart, Scan, false, Failed(true), false, Send(false), Closing)
    ensures Goes(Authentication, Closing, Scan, false, Failed(true), false, Choose, Uninit)
  {
  }

  lemma GoesToUninit()
    ensures Goes(Authentication, Uninit, Scan, false, Failed(true), false, Send(false), UninitIdle)
    ensures Goes(Authentication, UninitIdle, Scan, false, Failed(true), false, Write(Idle), FinalIdle)
  {
  }

  /** A capture that fails ends the session. */
  lemma CaptureFails(from: System, done: seq<Label>, s: System, i: nat, aborts: nat)
    returns (labels: seq<Label>, s': System)
    requires Reaches(from, done, s) && At(s, i, Authentication, CaptureStart, aborts) && s.state == Scan && !s.signal
    ensures Reaches(from, labels, s') && OnlyMoved(s, s', i) && At(s', i, Authentication, FinalIdle, aborts)
    ensures SharedOf(s') == SharedOf(s).(state := Idle)
  {
    hide Reaches, Goes, At;
    GoesToClose();
    GoesToUninit();
    labels, s' := Move(from, done, s, i, Authentication, CaptureStart, aborts, Failed(true), false, Send(false),
      Closing);
    labels, s' := Move(from, labels, s', i, Authentication, Closing, aborts, Failed(true), false, Choose, Uninit);
    labels, s' := Move(from, labels, s', i, Authentication, Uninit, aborts, Failed(true), false, Send(false),
      UninitIdle);
    labels, s' := Move(from, labels, s', i, Authentication, UninitIdle, aborts, Failed(true), false, Write(Idle),
      FinalIdle);
  }

  /** The polling loop of a cancel ends, and the call returns. */
  lemma CancelReturns(from: System, done: seq<Label>, s: System, n: nat) returns (labels: seq<Label>, s': System)
    requires Reaches(from, done, s) && n < |s.threads| && s.threads[n] == Canceller(Spin)
    requires s.state == Idle && s.deviceOwner == None
    ensures Reaches(from, labels, s') && OnlyMoved(s, s', n) && s'.threads[n] == Canceller(CancelReturned)
      && SharedOf(s') == SharedOf(s)
  {
    hide Reaches;
    labels, s' := Turn(from, done, s, n, Canceller(Spin), OK, Read, Canceller(CancelNoticeLock));
    labels, s' := Turn(from, labels, s', n, Canceller(CancelNoticeLock), OK, Acquire(Lock.Device),
      Canceller(CancelNoticeUnlock));
    labels, s' := Turn(from, labels, s', n, Canceller(CancelNoticeUnlock), OK, Unlock(Lock.Device),
      Canceller(CancelReturned));
  }

  /** The timeout passes, and the timeout thread writes CANCEL. */
  lemma TimesOut(from: System, done: seq<Label>, s: System, n: nat) returns (labels: seq<Label>, s': System)
    requires Reaches(from, done, s) && n < |s.threads| && s.threads[n] == Timer(TimerWaiting)
      && s.state == WorkerState.Enroll
    ensures Reaches(from, labels, s') && OnlyMoved(s, s', n) && s'.threads[n] == Timer(TimerSpin)
    ensures SharedOf(s') == SharedOf(s).(state := Cancel, cancels := s.cancels + 1)
  {
    hide Reaches;
    labels, s' := Turn(from, done, s, n, Timer(TimerWaiting), OK, Choose, Timer(TimerFirst));
    labels, s' := Turn(from, labels, s', n, Timer(TimerFirst), OK, Read, Timer(TimerSecond));
    labels, s' := Turn(from, labels, s', n, Timer(TimerSecond), OK, Read, Timer(TimerCancel));
    labels, s' := Turn(from, labels, s', n, Timer(TimerCancel), OK, Write(Cancel), Timer(TimerSpin));
  }

  /** A cancel joins the timeout thread. */
  lemma JoinsTimer(from: System, done: seq<Label>, s: System, j: nat) returns (labels: seq<Label>, s': System)
    requires Reaches(from, done, s) && s.timer == Some(j)
    ensures Reaches(from, labels, s') && Joined(s, s', [Canceller(Joining(j))]) && SharedOf(s') == SharedOf(s)
  {
    hide Reaches;
    var n := |s.threads|;
    labels, s' := Call(from, done, s, Canceller(Handshake));
    labels, s' := Turn(from, labels, s', n, Canceller(Handshake), OK, ReadTimer, Canceller(Joining(j)));
    assert s'.threads == s.threads + [Canceller(Joining(j))];
  }
}
