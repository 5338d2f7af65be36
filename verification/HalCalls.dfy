/**
 The threads that do not send commands: the starts, the cancel, the timeout and the data-ready
 handler, in imperative form.  Like the workers they record what they share with other threads,
 and follow the program counters of the session machine.
 */
module HalCalls {
  import opened Protocol
  import opened Session
  import opened Journal
  import opened WorkerTrace
  import opened Slots
  import opened Device

  const ERROR_TIMEOUT := 3
  const ERROR_CANCELED := 5

  predicate Suits(t: Thread, e: Event) {
    match e
    case Saw(_) => ActionOf(t) == Read
    case Put(value) => ActionOf(t) == Write(value)
    case Locked(lock) => ActionOf(t) == Acquire(lock)
    case Unlocked(lock) => ActionOf(t) == Unlock(lock)
    case SetSignal(flag) => ActionOf(t) == PutSignal(flag)
    case Signalled => ActionOf(t) == Notify
    case Spawned(_) => ActionOf(t).Create?
    case Tested(_) => ActionOf(t) == Choose
    case SawTimer(_) => ActionOf(t) == ReadTimer
    case Joined(timer) => ActionOf(t) == Join(timer)
    case DroppedTimer => ActionOf(t) == DropTimer
    case _ => false
  }

  function Moved(at: Option<Thread>, e: Event): Option<Thread> {
    if at.Some? && Suits(at.value, e) then Some(Advance(at.value, See(e), 0)) else None
  }

  /** Where the events lead a thread; nowhere if they are not its own. */
  function Course(t: Thread, events: seq<Event>): Option<Thread> {
    if events == [] then Some(t)
    else Moved(Course(t, events[..|events| - 1]), events[|events| - 1])
  }

  /** The n-th of the readings to come. */
  function Foreseen(readings: seq<WorkerState>, n: nat): WorkerState {
    if n < |readings| then readings[n] else Idle
  }

  function Later(readings: seq<WorkerState>, n: nat): seq<WorkerState> {
    if n < |readings| then readings[n..] else []
  }

  /** One call by one thread. */
  class Caller {
    var readings: seq<WorkerState>
    ghost const self: Thread
    ghost var log: seq<Event>
    ghost var at: Option<Thread>

    constructor (self: Thread, readings: seq<WorkerState>)
      ensures Valid() && this.self == self && this.readings == readings && log == [] && at == Some(self)
    {
      this.readings := readings;
      this.self := self;
      log, at := [], Some(self);
    }

    ghost predicate Valid()
      reads this`log, this`at
    {
      at == Course(self, log)
    }

    ghost method Note(e: Event)
      requires Valid()
      modifies this`log, this`at
      ensures Valid() && log == old(log) + [e] && at == Moved(old(at), e)
    {
      assert (log + [e])[..|log|] == log;
      log, at := log + [e], Moved(at, e);
    }

    method GetState() returns (state: WorkerState)
      requires Valid()
      modifies this`readings, this`log, this`at
      ensures Valid() && log == old(log) + [Saw(state)] && at == Moved(old(at), Saw(state))
      ensures state == Foreseen(old(readings), 0) && readings == Later(old(readings), 1)
    {
      state := Idle;
      if readings != [] {
        state, readings := readings[0], readings[1..];
      }
      Note(Saw(state));
    }

    /** Polls the state word until it is IDLE. */
    method SpinUntilIdle()
      requires Valid() && (at == Some(Canceller(Spin)) || at == Some(Timer(TimerSpin)))
      modifies this`readings, this`log, this`at
      ensures Valid() && old(log) <= log
      ensures at == Some(if old(at) == Some(Canceller(Spin)) then Canceller(CancelNoticeLock) else Timer(TimerNoticeLock))
      ensures forall k | |old(log)| <= k < |log| :: log[k].Saw?
    {
      hide Valid;
      var state := GetState();
      while state != Idle
        invariant Valid() && old(log) <= log && forall k | |old(log)| <= k < |log| :: log[k].Saw?
        invariant at == if state != Idle then old(at)
                        else Some(if old(at) == Some(Canceller(Spin)) then Canceller(CancelNoticeLock) else Timer(TimerNoticeLock))
        decreases |readings|, if state != Idle then 1 else 0
      {
        state := GetState();
      }
    }
  }

  /** Whether this value was written between the two logs. */
  ghost predicate Writes(before: seq<Event>, now: seq<Event>, value: WorkerState) {
    exists k | |before| <= k < |now| :: now[k] == Put(value)
  }

  /** The test that cancel, timeout and handler make: two readings, the second only when the first is not IDLE. */
  predicate Busy(readings: seq<WorkerState>) {
    Foreseen(readings, 0) != Idle && Foreseen(readings, 1) != Cancel
  }

  method TestBusy(c: Caller) returns (busy: bool)
    requires c.Valid() && c.at.Some? && TestPoint(c.at.value)
    modifies c`readings, c`log, c`at
    ensures c.Valid() && old(c.log) <= c.log && c.at == Some(AfterTest(old(c.at).value, busy))
    ensures busy == Busy(old(c.readings))
    ensures var readings := old(c.readings);
      busy <==> readings != [] && readings[0] != Idle && (|readings| > 1 ==> readings[1] != Cancel)
    ensures forall k | |old(c.log)| <= k < |c.log| :: c.log[k].Saw?
  {
    hide c.Valid;
    busy := false;
    var state := c.GetState();
    if state != Idle {
      state := c.GetState();
      busy := state != Cancel;
    }
  }

  predicate TestPoint(t: Thread) {
    t == Canceller(CancelFirst) || t == Timer(TimerFirst) || t == Handler(HandlerFirst)
  }

  function AfterTest(t: Thread, busy: bool): Thread
    requires TestPoint(t)
  {
    if t.Canceller? then Canceller(if busy then SetCancel else CancelReturned)
    else if t.Timer? then Timer(if busy then TimerCancel else TimerNoticeLock)
    else Handler(if busy then HandlerSet else HandlerSignal)
  }

  /** The handshake with the timeout thread, if there is one: the call goes on when that thread is over. */
  method JoinTimer(c: Caller, timer: Option<nat>)
    requires c.Valid() && c.at == Some(Canceller(Handshake))
    modifies c`log, c`at
    ensures c.Valid() && c.at == Some(Canceller(CancelFirst))
    ensures c.log == old(c.log) + [SawTimer(timer)] + (if timer.Some? then [Joined(timer.value), DroppedTimer] else [])
  {
    hide c.Valid;
    c.Note(SawTimer(timer));
    if timer.Some? {
      c.Note(Joined(timer.value));
      c.Note(DroppedTimer);
    }
  }

  /**
   fingerprint_cancel.  CANCEL is written, and then the sensor is signalled and a notice sent,
   exactly when neither reading stops it; a session that ends between the two does not.
   */
  method FingerprintCancel(c: Caller, dev: FingerprintDevice, timer: Option<nat>) returns (ret: int)
    requires c.Valid() && c.at == Some(Canceller(Handshake))
    modifies c`readings, c`log, c`at, dev`notices
    ensures c.Valid() && c.at == Some(Canceller(CancelReturned)) && old(c.log) <= c.log && ret == 0
    ensures Writes(old(c.log), c.log, Cancel) <==> Busy(old(c.readings))
    ensures dev.notices == old(dev.notices) + (if Busy(old(c.readings)) then [Error(ERROR_CANCELED)] else [])
  {
    hide c.Valid, Busy;
    ret := 0;
    JoinTimer(c, timer);
    var busy := TestBusy(c);
    if busy {
      c.Note(Put(Cancel));
      assert c.log[|c.log| - 1] == Put(Cancel);
      SignalSensorOf(c);
      c.SpinUntilIdle();
      NoticeUnderLock(c, dev, Error(ERROR_CANCELED));
    }
  }

  method SignalSensorOf(c: Caller)
    requires c.Valid() && c.at == Some(Canceller(LockSensor))
    modifies c`log, c`at
    ensures c.Valid() && c.at == Some(Canceller(Spin)) && old(c.log) <= c.log
  {
    hide c.Valid;
    c.Note(Locked(Sensor));
    c.Note(Signalled);
    c.Note(Unlocked(Sensor));
  }

  method NoticeUnderLock(c: Caller, dev: FingerprintDevice, notice: Notice)
    requires c.Valid() && (c.at == Some(Canceller(CancelNoticeLock)) || c.at == Some(Timer(TimerNoticeLock)))
    modifies c`log, c`at, dev`notices
    ensures c.Valid() && old(c.log) <= c.log && dev.notices == old(dev.notices) + [notice]
    ensures c.at == Some(if old(c.at).value.Canceller? then Canceller(CancelReturned) else Timer(TimerOver))
    ensures forall k | |old(c.log)| <= k < |c.log| :: !c.log[k].Put?
  {
    hide c.Valid;
    c.Note(Locked(Lock.Device));
    dev.Notify(notice);
    c.Note(Unlocked(Lock.Device));
  }

  /**
   vcs_timeout: CANCEL is written exactly when the wait timed out in a session, and the notice is
   sent at every timeout.  The sensor is not signalled.
   */
  method Timeout(c: Caller, dev: FingerprintDevice, timedOut: bool)
    requires c.Valid() && c.at == Some(Timer(TimerWaiting))
    modifies c`readings, c`log, c`at, dev`notices
    ensures c.Valid() && c.at == Some(Timer(TimerOver)) && old(c.log) <= c.log
    ensures Writes(old(c.log), c.log, Cancel) <==> timedOut && Busy(old(c.readings))
    ensures dev.notices == old(dev.notices) + (if timedOut then [Error(ERROR_TIMEOUT)] else [])
  {
    hide c.Valid, Busy;
    c.Note(Tested(timedOut));
    if timedOut {
      var busy := TestBusy(c);
      if busy {
        c.Note(Put(Cancel));
        assert c.log[|c.log| - 1] == Put(Cancel);
        c.SpinUntilIdle();
      }
      NoticeUnderLock(c, dev, Error(ERROR_TIMEOUT));
    }
  }

  /** sensor_process_signal: the flag is raised exactly when both readings say that a session runs. */
  method ProcessSignal(c: Caller, timer: Option<nat>)
    requires c.Valid() && c.at == Some(Handler(HandlerHandshake))
    modifies c`readings, c`log, c`at
    ensures c.Valid() && c.at == Some(Handler(HandlerOver)) && old(c.log) <= c.log
    ensures Busy(old(c.readings)) <==> exists k | |old(c.log)| <= k < |c.log| :: c.log[k] == SetSignal(true)
  {
    hide c.Valid, Busy;
    ForgetTimer(c, timer);
    c.Note(Locked(Sensor));
    var busy := TestBusy(c);
    if busy {
      c.Note(SetSignal(true));
    }
    ghost var before := c.log;
    SignalAndUnlock(c);
    assert busy ==> c.log[|before| - 1] == SetSignal(true);
    assert forall k | |before| <= k < |c.log| :: c.log[k] == Signalled || c.log[k] == Unlocked(Sensor);
  }

  /** The handshake of the handler does not wait for the timeout thread. */
  method ForgetTimer(c: Caller, timer: Option<nat>)
    requires c.Valid() && c.at == Some(Handler(HandlerHandshake))
    modifies c`log, c`at
    ensures c.Valid() && c.at == Some(Handler(HandlerLock))
    ensures c.log == old(c.log) + [SawTimer(timer)] + (if timer.Some? then [DroppedTimer] else [])
  {
    hide c.Valid;
    c.Note(SawTimer(timer));
    if timer.Some? {
      c.Note(DroppedTimer);
    }
  }

  method SignalAndUnlock(c: Caller)
    requires c.Valid() && c.at == Some(Handler(HandlerSignal))
    modifies c`log, c`at
    ensures c.Valid() && c.at == Some(Handler(HandlerOver)) && c.log == old(c.log) + [Signalled, Unlocked(Sensor)]
  {
    hide c.Valid;
    c.Note(Signalled);
    c.Note(Unlocked(Sensor));
  }

  // ----- the starts

  /**
   fingerprint_authenticate: SCAN is written exactly when the fifth reading is IDLE, whatever the
   first four were; the results are those of vcs_init and pthread_create.
   */
  method FingerprintAuthenticate(c: Caller, init: int, create: int) returns (ret: int)
    requires c.Valid() && c.at == Some(Starter(Authentication, LockDevice))
    modifies c`readings, c`log, c`at
    ensures c.Valid() && c.at == Some(Starter(Authentication, Returned)) && old(c.log) <= c.log
    ensures Writes(old(c.log), c.log, Scan) <==> Foreseen(old(c.readings), 4) == Idle
    ensures ret == if Foreseen(old(c.readings), 4) != Idle then -1 else if init != 0 then init else create
  {
    hide c.Valid;
    c.Note(Locked(Lock.Device));
    var idle := ReadFiveTimes(c);
    if idle {
      c.Note(Put(Scan));
      assert c.log[|c.log| - 1] == Put(Scan);
      ret := Launch(c, Authentication, init, create, 0, 0);
    } else {
      ret := -1;
      c.Note(Unlocked(Lock.Device));
    }
  }

  /** The loop of vcs_start_authenticate. */
  method ReadFiveTimes(c: Caller) returns (idle: bool)
    requires c.Valid() && c.at == Some(Starter(Authentication, StarterPc.Reading(0)))
    modifies c`readings, c`log, c`at
    ensures c.Valid() && c.at == Some(Starter(Authentication, if idle then SetMark else UnlockDevice))
    ensures idle <==> Foreseen(old(c.readings), 4) == Idle
    ensures old(c.log) <= c.log && forall k | |old(c.log)| <= k < |c.log| :: c.log[k].Saw?
  {
    hide c.Valid;
    for times := 0 to 5
      invariant c.Valid() && c.readings == Later(old(c.readings), times)
      invariant c.at == Some(Starter(Authentication, if times < 5 then StarterPc.Reading(times) else SetMark))
      invariant times == 5 ==> Foreseen(old(c.readings), 4) == Idle
      invariant old(c.log) <= c.log && forall k | |old(c.log)| <= k < |c.log| :: c.log[k].Saw?
    {
      var state := c.GetState();
      if state != Idle {
        if times < 4 {
          continue;
        }
        return false;
      }
    }
    return true;
  }

  /** After the mark is written: vcs_init, and the threads. */
  method Launch(c: Caller, kind: Kind, init: int, create: int, timeout: nat, createTimer: int) returns (ret: int)
    requires c.Valid() && c.at == Some(Starter(kind, Init)) && (kind == Authentication ==> timeout == 0)
    modifies c`log, c`at
    ensures c.Valid() && c.at == Some(Starter(kind, Returned)) && old(c.log) <= c.log
    ensures ret == if init != 0 then init else if create != 0 then create else if timeout != 0 then createTimer else 0
    ensures forall k | |old(c.log)| <= k < |c.log| :: !c.log[k].Put?
  {
    hide c.Valid;
    ret := init;
    c.Note(Tested(init == 0));
    if ret == 0 {
      ret := StartThreads(c, kind, create, timeout, createTimer);
    }
    c.Note(Unlocked(Lock.Device));
  }

  method StartThreads(c: Caller, kind: Kind, create: int, timeout: nat, createTimer: int) returns (ret: int)
    requires c.Valid() && c.at == Some(Starter(kind, Spawn)) && (kind == Authentication ==> timeout == 0)
    modifies c`log, c`at
    ensures c.Valid() && c.at == Some(Starter(kind, UnlockDevice)) && old(c.log) <= c.log
    ensures ret == if create != 0 then create else if timeout != 0 then createTimer else 0
    ensures forall k | |old(c.log)| <= k < |c.log| :: !c.log[k].Put?
  {
    hide c.Valid;
    ret := create;
    c.Note(Spawned(create == 0));
    if ret == 0 && kind.Enrolment? {
      if timeout != 0 {
        ret := createTimer;
      }
      c.Note(Spawned(timeout != 0 && createTimer == 0));
    }
  }

  /**
   fingerprint_enroll, once its token is accepted.  ENROLL is written exactly when a slot is free
   and the one reading is IDLE; without a free slot the thread waits for the lock it holds.
   */
  method FingerprintEnroll(c: Caller, dev: FingerprintDevice, init: int, create: int, timeout: nat, createTimer: int)
    returns (ret: int, stuck: bool)
    requires c.Valid() && c.at == Some(Starter(Enrolment, LockDevice)) && dev.Valid()
    modifies c`readings, c`log, c`at
    ensures c.Valid() && old(c.log) <= c.log
    ensures stuck <==> forall i | 1 <= i <= MAX_NUM_FINGERS :: dev.finger[i].exist
    ensures c.at == Some(Starter(Enrolment, if stuck then NoSpace else Returned))
    ensures Writes(old(c.log), c.log, WorkerState.Enroll) <==> !stuck && Foreseen(old(c.readings), 0) == Idle
    ensures !stuck ==>
      ret == if Foreseen(old(c.readings), 0) != Idle then -1
             else if init != 0 then init else if create != 0 then create else if timeout != 0 then createTimer else 0
  {
    hide c.Valid;
    ret, stuck := -1, false;
    var idle;
    stuck, idle := LookAround(c, dev);
    if stuck {
      return;
    }
    if idle {
      c.Note(Put(WorkerState.Enroll));
      assert c.log[|c.log| - 1] == Put(WorkerState.Enroll);
      ret := Launch(c, Enrolment, init, create, timeout, createTimer);
    } else {
      c.Note(Unlocked(Lock.Device));
    }
  }

  /** The search for a free slot under the lock, and the reading of the state word. */
  method LookAround(c: Caller, dev: FingerprintDevice) returns (full: bool, idle: bool)
    requires c.Valid() && c.at == Some(Starter(Enrolment, LockDevice)) && dev.Valid()
    modifies c`readings, c`log, c`at
    ensures c.Valid() && old(c.log) <= c.log && forall k | |old(c.log)| <= k < |c.log| :: !c.log[k].Put?
    ensures full <==> forall i | 1 <= i <= MAX_NUM_FINGERS :: dev.finger[i].exist
    ensures c.at == Some(Starter(Enrolment, if full then NoSpace else if idle then SetMark else UnlockDevice))
    ensures !full ==> (idle <==> Foreseen(old(c.readings), 0) == Idle)
  {
    hide c.Valid;
    idle := false;
    c.Note(Locked(Lock.Device));
    var idx := FindFree(dev.finger);
    full := idx > MAX_NUM_FINGERS;
    c.Note(Tested(!full));
    assert full ==> forall i | 1 <= i <= MAX_NUM_FINGERS :: dev.finger[..][i].exist;
    if !full {
      assert !dev.finger[..][idx].exist;
      var state := c.GetState();
      idle := state == Idle;
    }
  }
}
