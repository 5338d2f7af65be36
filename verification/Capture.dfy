/**
 What both kinds of worker do: the test for a cancel, notices, and vcs_start_capture.  The ghost
 `at` of the client says where in the session machine's program the worker is.
 */
module Capture {
  import opened Commands
  import opened Protocol
  import opened Session
  import opened Journal
  import opened WorkerTrace
  import opened TrustZone
  import opened Device
  import opened Notices

  ghost predicate CaptureOnly(before: seq<Event>, now: seq<Event>) {
    before <= now && forall k | |before| <= k < |now| :: IsCaptureEvent(now[k])
  }

  /** Only commands of a capture are sent, and not the one that judges the image. */
  ghost predicate Quietly(before: seq<Event>, now: seq<Event>) {
    CaptureOnly(before, now) && forall k | |before| <= k < |now| :: now[k].Sent? ==> now[k].command != CaptureProcessData
  }

  lemma QuietlySince(before: seq<Event>, now: seq<Event>)
    requires Quietly(before, now)
    ensures before <= now && Since(before, now) == []
  {
    hide Since;
    ContentedSince(before, now);
  }

  lemma QuietlyGrows()
    ensures forall a, b | Quietly(a, b) :: a <= b
  {
  }

  /** vcs_check_state: whether the session is over; a cancel is answered with CaptureAbort. */
  method CheckState(tz: TrustZone, ghost site: Site) returns (stop: bool)
    requires tz.Valid() && tz.at == Some(CheckFirst(site))
    modifies tz`readings, tz`log, tz`at
    ensures tz.Valid()
    ensures tz.at == Some(if stop then Stopped(tz.kind, site) else GoesOn(site))
    ensures !stop ==> |tz.readings| < |old(tz.readings)|
    ensures |tz.readings| <= |old(tz.readings)|
    ensures Quietly(old(tz.log), tz.log)
    ensures stop ==>
      || tz.log == old(tz.log) + [Saw(Idle)]
      || exists first, answer ::
           tz.log == old(tz.log) + [Saw(first), Saw(Cancel), Sent(CaptureAbort, 0, 0, [], answer), Put(Idle)]
    ensures !stop ==> exists first, second ::
      first != Idle && second != Cancel && tz.log == old(tz.log) + [Saw(first), Saw(second)]
  {
    hide tz.Valid, Stopped, GoesOn;
    var state := tz.GetState();
    if state == Idle {
      return true;
    }
    ghost var first := state;
    state := tz.GetState();
    if state == Cancel {
      ghost var answer := AnswerCancel(tz, site);
      assert tz.log == old(tz.log) + [Saw(first), Saw(Cancel), Sent(CaptureAbort, 0, 0, [], answer), Put(Idle)];
      return true;
    }
    assert tz.log == old(tz.log) + [Saw(first), Saw(state)];
    return false;
  }

  method AnswerCancel(tz: TrustZone, ghost site: Site) returns (ghost answer: Answer)
    requires tz.Valid() && tz.at == Some(CheckAbort(site))
    modifies tz`log, tz`at
    ensures tz.Valid() && tz.at == Some(Stopped(tz.kind, site)) && Quietly(old(tz.log), tz.log)
    ensures tz.log == old(tz.log) + [Sent(CaptureAbort, 0, 0, [], answer), Put(Idle)]
  {
    hide tz.Valid, Stopped;
    var resp := tz.Ask(CaptureAbort, 0, 0, []);
    answer := resp;
    tz.Note(Put(Idle));
  }

  /** A notice, sent under the device's lock. */
  method SendNotice(tz: TrustZone, dev: FingerprintDevice, notice: Notice, ghost next: Then)
    requires tz.Valid() && tz.at == Some(NoticeLock(next))
    modifies tz`log, tz`at, dev`notices
    ensures tz.Valid() && tz.at == Some(AfterNotice(next))
    ensures Quietly(old(tz.log), tz.log)
    ensures dev.notices == old(dev.notices) + [notice]
  {
    hide tz.Valid, AfterNotice;
    tz.Note(Locked(Device));
    dev.Notify(notice);
    tz.Note(Unlocked(Device));
  }

  // ----- vcs_start_capture

  /**
   vcs_start_capture.  A return value of -1 ends the session; any other counts as an image, even
   the one that says that the capture could not be started.
   */
  method StartCapture(tz: TrustZone, dev: FingerprintDevice) returns (ret: int)
    requires tz.Valid() && tz.at == Some(WorkerPc.CaptureStart)
    modifies tz`readings, tz`log, tz`at, tz`calibrateLen, tz`calibrateData, dev`notices
    ensures tz.Valid()
    ensures tz.at == Some(if ret == -1 then CaptureFailed(tz.kind) else CaptureDone(tz.kind))
    ensures CaptureOnly(old(tz.log), tz.log)
    ensures dev.notices == old(dev.notices) + Since(old(tz.log), tz.log)
    ensures forall k | |old(dev.notices)| <= k < |dev.notices| :: dev.notices[k] == Acquired(false)
    ensures |tz.readings| <= |old(tz.readings)|
    decreases |tz.readings|
  {
    hide tz.Valid, CaptureFailed, CaptureDone, CaptureOnly, Quietly, Since;
    CaptureExtends();
    var again: bool;
    ret, again := AttemptCapture(tz);
    if again {
      ghost var attempted := tz.log;
      SendNotice(tz, dev, Acquired(false), ToCapture);
      ghost var told := tz.log;
      QuietlySince(attempted, told);
      ret := StartCapture(tz, dev);
      SinceThen(old(tz.log), attempted, told);
      SinceThen(old(tz.log), told, tz.log);
    }
  }

  lemma CaptureExtends()
    ensures forall a, b | Quietly(a, b) :: CaptureOnly(a, b)
    ensures forall a, b | CaptureOnly(a, b) :: a <= b
    ensures forall a, b, c | CaptureOnly(a, b) && CaptureOnly(b, c) :: CaptureOnly(a, c)
  {
  }

  lemma QuietlyExtends()
    ensures forall a, b, c | Quietly(a, b) && Quietly(b, c) :: Quietly(a, c)
    ensures forall a, e: Event | !e.Sent? :: Quietly(a, a + [e])
  {
  }

  /** One attempt, which the app may reject as an image that is no good. */
  method AttemptCapture(tz: TrustZone) returns (ret: int, again: bool)
    requires tz.Valid() && tz.at == Some(WorkerPc.CaptureStart)
    modifies tz`readings, tz`log, tz`at, tz`calibrateLen, tz`calibrateData
    ensures tz.Valid() && CaptureOnly(old(tz.log), tz.log) && |old(tz.log)| < |tz.log|
    ensures tz.at == Some(if again then NoticeLock(ToCapture)
                          else if ret == -1 then CaptureFailed(tz.kind) else CaptureDone(tz.kind))
    ensures Since(old(tz.log), tz.log) == if again then [Acquired(false)] else []
    ensures var e := tz.log[|old(tz.log)|];
      && e.Sent? && e == Sent(Command.CaptureStart, 0x1c, 0, [], e.answer)
      && (e.answer.ret != 0 || e.answer.result != 0 ==> tz.log == old(tz.log) + [e] && !again && ret == e.answer.ret)
    ensures if again then |tz.readings| < |old(tz.readings)| else |tz.readings| <= |old(tz.readings)|
  {
    hide tz.Valid, CaptureFailed, CaptureDone, Since;
    again := false;
    var resp := tz.Ask(Command.CaptureStart, 0x1c, 0, []);
    if !IsAccepted(resp) {
      ret := resp.ret;
      QuietlySince(old(tz.log), tz.log);
      return;
    }
    Arm(tz);
    var stop := WaitForImage(tz);
    QuietlySince(old(tz.log), tz.log);
    if stop {
      ret := -1;
      return;
    }
    ghost var taken := tz.log;
    ghost var judged;
    ret, again, judged := ProcessImage(tz);
    SinceOne(taken, judged);
    SinceThen(old(tz.log), taken, tz.log);
  }

  /** The app judges the image. */
  method ProcessImage(tz: TrustZone) returns (ret: int, again: bool, ghost judged: Event)
    requires tz.Valid() && tz.at == Some(ProcessData)
    modifies tz`log, tz`at
    ensures tz.Valid() && tz.log == old(tz.log) + [judged]
    ensures judged.Sent? && judged == Sent(CaptureProcessData, 0x1c, 0xc, [], judged.answer)
    ensures again <==> judged.answer.ret == 0 && judged.answer.result != 0
    ensures ret == if judged.answer.ret != 0 then -1 else 0
    ensures tz.at == Some(if again then NoticeLock(ToCapture)
                          else if ret == -1 then CaptureFailed(tz.kind) else CaptureDone(tz.kind))
  {
    hide tz.Valid, CaptureFailed, CaptureDone;
    ret, again := 0, false;
    var resp := tz.Ask(CaptureProcessData, 0x1c, 0xc, []);
    judged := Sent(CaptureProcessData, 0x1c, 0xc, [], resp);
    if resp.ret != 0 {
      ret := -1;
    } else {
      again := resp.result != 0;
    }
  }

  method WaitForImage(tz: TrustZone) returns (stop: bool)
    requires tz.Valid() && tz.at == Some(WaitLock)
    modifies tz`readings, tz`log, tz`at
    ensures tz.Valid() && Quietly(old(tz.log), tz.log)
    ensures tz.at == Some(if stop then CaptureFailed(tz.kind) else ProcessData)
    ensures if stop then |tz.readings| <= |old(tz.readings)| else |tz.readings| < |old(tz.readings)|
  {
    hide tz.Valid, CaptureFailed, Quietly;
    QuietlyExtends();
    AwaitSignal(tz);
    stop := CheckState(tz, AfterWait);
    if !stop {
      TakeSignal(tz);
      stop := ReadImage(tz);
    }
  }

  /** The calibration data is refreshed and the sensor told to capture. */
  method Arm(tz: TrustZone)
    requires tz.Valid() && tz.at == Some(UpdateCal)
    modifies tz`log, tz`at, tz`calibrateLen, tz`calibrateData
    ensures tz.Valid() && tz.at == Some(WaitLock) && Quietly(old(tz.log), tz.log)
  {
    hide tz.Valid;
    var ret;
    ghost var answer;
    ret, answer := tz.UpdateCalibration();
    tz.Note(Locked(Sensor));
    tz.Note(Unlocked(Sensor));
  }

  /** The guarded wait for the data-ready signal. */
  method AwaitSignal(tz: TrustZone)
    requires tz.Valid() && tz.at == Some(WaitLock)
    modifies tz`readings, tz`log, tz`at
    ensures tz.Valid() && tz.at == Some(CheckFirst(AfterWait)) && Quietly(old(tz.log), tz.log)
    ensures |tz.readings| <= |old(tz.readings)|
  {
    hide tz.Valid, Quietly;
    QuietlyExtends();
    tz.Note(Locked(Sensor));
    while true
      invariant tz.Valid() && tz.at == Some(CheckFirst(Guard)) && Quietly(old(tz.log), tz.log)
      invariant |tz.readings| <= |old(tz.readings)|
      decreases |tz.readings|
    {
      var stop := CheckState(tz, Guard);
      if stop {
        break;
      }
      var signal: bool := *;
      tz.Note(SawSignal(signal));
      if signal {
        break;
      }
      Sleep(tz);
    }
    tz.Note(Unlocked(Sensor));
  }

  /** pthread_cond_wait: the lock is given up, and taken again before it returns. */
  method Sleep(tz: TrustZone)
    requires tz.Valid() && tz.at == Some(Doze)
    modifies tz`log, tz`at
    ensures tz.Valid() && tz.at == Some(CheckFirst(Guard)) && Quietly(old(tz.log), tz.log)
  {
    hide tz.Valid;
    tz.Note(Waited);
    tz.Note(Woke);
    tz.Note(Locked(Sensor));
  }

  method TakeSignal(tz: TrustZone)
    requires tz.Valid() && tz.at == Some(ClearLock)
    modifies tz`log, tz`at
    ensures tz.Valid() && tz.at == Some(CheckFirst(ReadLoop)) && Quietly(old(tz.log), tz.log)
  {
    hide tz.Valid;
    tz.Note(Locked(Sensor));
    tz.Note(SetSignal(false));
    tz.Note(Unlocked(Sensor));
  }

  /** The app has the whole image, and the finger is gone. */
  predicate Lifted(e: Event) {
    e.Sent? && e.command == CaptureReadData && e.answer.ret == 0 && e.answer.result == 0 && Field(e.answer, 2) == 2
  }

  ghost predicate NotLifted(before: seq<Event>, now: seq<Event>) {
    before <= now && forall k | |before| <= k < |now| :: !Lifted(now[k])
  }

  /** The image is asked for again and again, until the finger is gone or the session is over. */
  method ReadImage(tz: TrustZone) returns (stop: bool)
    requires tz.Valid() && tz.at == Some(CheckFirst(ReadLoop))
    modifies tz`readings, tz`log, tz`at
    ensures tz.Valid() && Quietly(old(tz.log), tz.log)
    ensures tz.at == Some(if stop then CaptureFailed(tz.kind) else ProcessData)
    ensures if stop then |tz.readings| <= |old(tz.readings)| else |tz.readings| < |old(tz.readings)|
    ensures if stop then NotLifted(old(tz.log), tz.log)
            else |old(tz.log)| < |tz.log| && NotLifted(old(tz.log), tz.log[..|tz.log| - 1]) && Lifted(tz.log[|tz.log| - 1])
  {
    hide tz.Valid;
    while true
      invariant tz.Valid() && tz.at == Some(CheckFirst(ReadLoop)) && Quietly(old(tz.log), tz.log)
      invariant NotLifted(old(tz.log), tz.log)
      invariant |tz.readings| <= |old(tz.readings)|
      decreases |tz.readings|
    {
      stop := CheckState(tz, ReadLoop);
      if stop {
        return;
      }
      var resp := tz.Ask(CaptureReadData, 0x8000, 0xc, []);
      if !IsAccepted(resp) {
        continue;
      }
      if Field(resp, 2) == 2 {
        break;
      }
    }
  }
}
