/**
 The authenticate worker, vcs_authenticate.  Other threads may change the slots while it runs.
 */
module AuthenticateWorker {
  import opened Commands
  import opened Protocol
  import opened Session
  import opened Journal
  import opened WorkerTrace
  import opened TrustZone
  import opened Slots
  import opened Device
  import opened Notices
  import opened Capture
  import opened AuthenticateScript

  /** Other threads may enrol, remove or load fingers at any time. */
  method OthersRun(dev: FingerprintDevice)
    modifies dev.finger
  {
    for i := 0 to dev.finger.Length {
      var finger: Finger :| true;
      dev.finger[i] := finger;
    }
  }

  /**
   At position k of the log an image was matched against the templates in `packed`, and then the
   payload of slot fid was released: the slot that the reply's index denotes in `seen`, or slot 0.
   */
  ghost predicate Released(log: seq<Event>, k: nat, packed: Table, seen: Table, fid: nat) {
    && k + 1 < |log| && log[k].Sent? && log[k + 1].Sent?
    && log[k].command == MatchImageToTemplates && IsAccepted(log[k].answer)
    && |log[k].body| == MATCH_DATA && Packed(log[k].body, packed, MAX_NUM_FINGERS + 1)
    && log[k + 1].command == PayloadRelease && fid <= MAX_NUM_FINGERS && log[k + 1].body == seen[fid].payload
    && (fid != 0 ==> IsSlotOf(seen, Field(log[k].answer, 22), fid))
    && (fid == 0 ==> IsSlotOfNone(seen, Field(log[k].answer, 22)))
  }

  /**
   The finger announced is the one matched, in the sense that the frame at the reply's index was
   packed from its slot, exactly when the slot was occupied at packing time with as many occupied
   slots before it; in particular when nobody changed the slots in between.
   */
  lemma AnnouncedWasMatched(log: seq<Event>, k: nat, packed: Table, seen: Table, fid: nat)
    requires Released(log, k, packed, seen, fid) && fid != 0
    ensures var index := Field(log[k].answer, 22);
      && (IsSlotOf(packed, index, fid) <==> packed[fid].exist && Occupied(packed, fid) == Occupied(seen, fid))
      && (IsSlotOf(packed, index, fid) ==> 0 <= index < FRAME_COUNT && FrameHolds(log[k].body, index, packed[fid].data))
      && (packed == seen ==> 0 <= index < FRAME_COUNT && FrameHolds(log[k].body, index, seen[fid].data))
  {
    hide FrameHolds, Field;
    if IsSlotOf(packed, Field(log[k].answer, 22), fid) {
      assert FrameOfSlot(log[k].body, packed, fid);
    }
  }

  /** What one attempt to match comes to. */
  datatype Attempt = Refused | Aborted | Matched

  method MatchImage(tz: TrustZone, dev: FingerprintDevice)
    returns (attempt: Attempt, fingerindex: nat, ghost packed: Table, ghost seen: Table)
    requires tz.Valid() && tz.at == Some(Match) && dev.Valid()
    modifies tz`log, tz`at, dev`notices, dev.finger
    ensures tz.Valid() && old(tz.log) <= tz.log
    ensures tz.at == Some(if attempt == Refused then Top else Closing)
    ensures dev.notices == old(dev.notices) + (match attempt
      case Refused => [Acquired(false)]
      case Aborted => [Error(ERROR_UNABLE_TO_PROCESS)]
      case Matched => [])
    ensures dev.notices == old(dev.notices) + Since(old(tz.log), tz.log)
    ensures attempt == Matched ==> Released(tz.log, |old(tz.log)|, packed, seen, fingerindex)
    ensures attempt != Matched ==> fingerindex == 0
  {
    hide tz.Valid, Packed, IsSlotOf, IsSlotOfNone, Since, Quietly;
    QuietlyGrows();
    attempt, fingerindex := Aborted, 0;
    OthersRun(dev);
    packed, seen := dev.finger[..], dev.finger[..];
    var resp := AskForMatch(tz, dev);
    ghost var asked := tz.log;
    ghost var e := asked[|old(tz.log)|];
    SinceOne(old(tz.log), e);
    assert asked == old(tz.log) + [e];
    if resp.ret != 0 {
      SendNotice(tz, dev, Error(ERROR_UNABLE_TO_PROCESS), ToClose);
      QuietAfter(old(tz.log), asked, tz.log);
      return;
    }
    if resp.result != 0 {
      SendNotice(tz, dev, Acquired(false), ToTop);
      attempt := Refused;
      QuietAfter(old(tz.log), asked, tz.log);
      return;
    }
    OthersRun(dev);
    seen := dev.finger[..];
    fingerindex := ReleasePayload(tz, dev, resp);
    attempt := Matched;
    assert tz.log == asked + [tz.log[|asked|]];
    SinceOne(asked, tz.log[|asked|]);
    SinceThen(old(tz.log), asked, tz.log);
    assert tz.log[|old(tz.log)|] == e;
    assert tz.log[|old(tz.log)| + 1].body == seen[fingerindex].payload;
  }

  /** A quiet end adds no complaint. */
  lemma QuietAfter(first: seq<Event>, second: seq<Event>, third: seq<Event>)
    requires first <= second && Quietly(second, third)
    ensures first <= third && Since(first, third) == Since(first, second)
  {
    hide Since;
    QuietlySince(second, third);
    SinceThen(first, second, third);
  }

  /** The command with all templates, as they are at this moment. */
  method AskForMatch(tz: TrustZone, dev: FingerprintDevice) returns (resp: Answer)
    requires tz.Valid() && tz.at == Some(Match) && dev.Valid()
    modifies tz`log, tz`at
    ensures tz.Valid() && |tz.log| == |old(tz.log)| + 1 && old(tz.log) <= tz.log
    ensures var e := tz.log[|old(tz.log)|];
      && e.Sent? && e == Sent(MatchImageToTemplates, 0x14, 0x5c, e.body, resp)
      && |e.body| == MATCH_DATA && Packed(e.body, dev.finger[..], MAX_NUM_FINGERS + 1)
    ensures tz.at == Some(if resp.ret != 0 then NoticeLock(ToClose) else if resp.result != 0 then NoticeLock(ToTop) else Release)
  {
    hide tz.Valid, Packed, WorkerNext, CommandAt, WorkerAction;
    MatchSteps(tz.kind);
    var data := Pack(dev.finger);
    resp := tz.Ask(MatchImageToTemplates, 0x14, 0x5c, data[..]);
  }

  /** The slot for the reply's index is looked up, in the slots as they are now, and its payload released. */
  method ReleasePayload(tz: TrustZone, dev: FingerprintDevice, resp: Answer) returns (fingerindex: nat)
    requires tz.Valid() && tz.at == Some(Release) && dev.Valid()
    modifies tz`log, tz`at
    ensures tz.Valid() && tz.at == Some(Closing) && |tz.log| == |old(tz.log)| + 1 && old(tz.log) <= tz.log
    ensures fingerindex <= MAX_NUM_FINGERS
    ensures fingerindex != 0 ==> IsSlotOf(dev.finger[..], Field(resp, 22), fingerindex)
    ensures fingerindex == 0 ==> IsSlotOfNone(dev.finger[..], Field(resp, 22))
    ensures var e := tz.log[|old(tz.log)|];
      e.Sent? && e == Sent(PayloadRelease, PAYLOAD_MAX_LENGTH, 0x24, dev.finger[fingerindex].payload, e.answer)
  {
    hide tz.Valid, WorkerNext, CommandAt, WorkerAction;
    MatchSteps(tz.kind);
    fingerindex := Select(dev.finger, Field(resp, 22));
    var released := tz.Ask(PayloadRelease, PAYLOAD_MAX_LENGTH, 0x24, dev.finger[fingerindex].payload);
  }

  lemma MatchSteps(kind: Kind)
    ensures CommandAt(kind, Match) == Some(MatchImageToTemplates)
    ensures forall o: Observed | o.reply.Failed? :: WorkerNext(kind, Match, o) == NoticeLock(ToClose)
    ensures forall o: Observed | o.reply.Rejected? :: WorkerNext(kind, Match, o) == NoticeLock(ToTop)
    ensures forall o: Observed | o.reply.Accepted? :: WorkerNext(kind, Match, o) == Release
    ensures CommandAt(kind, Release) == Some(PayloadRelease)
    ensures forall o :: WorkerNext(kind, Release, o) == Closing
  {
  }

  /** vcs_authenticate. */
  method Authenticate(tz: TrustZone, dev: FingerprintDevice)
    returns (ghost fid: nat, ghost k: nat, ghost packed: Table, ghost seen: Table)
    requires tz.Valid() && tz.at == Some(Begin) && tz.kind == Authentication && dev.Valid()
    modifies tz`readings, tz`log, tz`at, tz`calibrateLen, tz`calibrateData, tz`init, tz`authToken
    modifies dev`notices, dev.finger
    ensures tz.Valid() && tz.at == Some(Over) && old(tz.log) <= tz.log
    ensures dev.notices == old(dev.notices) + Since(old(tz.log), tz.log)
                             + (if fid == 0 then [] else [Acquired(true), Authenticated(fid)])
    ensures forall n | n in Since(old(tz.log), tz.log) :: n == Acquired(false) || n == Error(ERROR_UNABLE_TO_PROCESS)
    ensures fid != 0 ==>
      && |old(tz.log)| <= k && Released(tz.log, k, packed, seen, fid)
      && tz.begun <= |tz.log| && NeverFailed(tz.log[tz.begun..])
  {
    hide tz.Valid, Released, NeverFailed, Since;
    BegunBefore(tz);
    var fingerindex;
    fingerindex, k, packed, seen := Attempts(tz, dev);
    fid := fingerindex;
    ghost var before := tz.log;
    CloseSession(tz);
    ghost var closed := tz.log;
    Announce(tz, dev, fingerindex);
    SinceThen(old(tz.log), before, closed);
    SinceThen(old(tz.log), closed, tz.log);
    SinceIsBad(old(tz.log), tz.log);
    if fingerindex != 0 {
      ReleasedKept(before, tz.log, k, packed, seen, fid);
      ReleaseWithoutFailure(tz, k, packed, seen, fid);
    }
  }

  /** A payload that this worker released says that none of its captures returned -1. */
  lemma ReleaseWithoutFailure(tz: TrustZone, k: nat, packed: Table, seen: Table, fid: nat)
    requires tz.Valid() && tz.kind == Authentication && tz.at.Some?
    requires tz.begun <= k && Released(tz.log, k, packed, seen, fid)
    ensures tz.begun <= |tz.log| && NeverFailed(tz.log[tz.begun..])
  {
    hide Packed, IsSlotOf, IsSlotOfNone, NeverFailed, HandOver, Follow;
    var events := tz.log[tz.begun..];
    assert events[k + 1 - tz.begun] == tz.log[k + 1];
    ReleaseExcludesFailure(events, tz.at.value, k + 1 - tz.begun);
  }

  /** The log of the worker's own part only grows. */
  lemma BegunBefore(tz: TrustZone)
    requires tz.Valid()
    ensures tz.begun <= |tz.log|
  {
  }

  /** The app ends; nothing of this is told to the framework. */
  method CloseSession(tz: TrustZone)
    requires tz.Valid() && tz.at == Some(Closing) && tz.kind == Authentication
    modifies tz`log, tz`at, tz`init, tz`authToken
    ensures tz.Valid() && tz.at == Some(FinalIdle) && old(tz.log) <= tz.log
    ensures Since(old(tz.log), tz.log) == []
  {
    hide tz.Valid, Since;
    ghost var session := tz.authSessionOpened;
    ghost var fetched, answer := tz.Uninit();
    assert session ==> fetched[1..][0] == fetched[1] && fetched[1..][1] == fetched[2];
    ContentedSince(old(tz.log), tz.log);
  }

  /** The end of vcs_authenticate. */
  method Announce(tz: TrustZone, dev: FingerprintDevice, fingerindex: nat)
    requires tz.Valid() && tz.at == Some(FinalIdle)
    modifies tz`log, tz`at, dev`notices
    ensures tz.Valid() && tz.at == Some(Over) && old(tz.log) <= tz.log
    ensures dev.notices == old(dev.notices) + (if fingerindex == 0 then [] else [Acquired(true),
      Authenticated(fingerindex)])
    ensures Since(old(tz.log), tz.log) == []
  {
    hide tz.Valid, Quietly, Since;
    QuietlyExtends();
    tz.Note(Put(Idle));
    tz.Note(Tested(fingerindex != 0));
    if fingerindex != 0 {
      SendAuthenticated(tz, dev, fingerindex);
    }
    QuietlySince(old(tz.log), tz.log);
  }

  /** send_authenticated_notice. */
  method SendAuthenticated(tz: TrustZone, dev: FingerprintDevice, fid: nat)
    requires tz.Valid() && tz.at == Some(NoticeLock(ToSecondNotice))
    modifies tz`log, tz`at, dev`notices
    ensures tz.Valid() && tz.at == Some(Over) && Quietly(old(tz.log), tz.log)
    ensures dev.notices == old(dev.notices) + [Acquired(true), Authenticated(fid)]
  {
    hide tz.Valid, Quietly;
    QuietlyExtends();
    SendNotice(tz, dev, Acquired(true), ToSecondNotice);
    SendNotice(tz, dev, Authenticated(fid), ToDone);
  }

  lemma ReleasedKept(before: seq<Event>, now: seq<Event>, k: nat, packed: Table, seen: Table, fid: nat)
    requires before <= now && Released(before, k, packed, seen, fid)
    ensures Released(now, k, packed, seen, fid)
  {
  }

  /** The loop of vcs_authenticate. */
  method Attempts(tz: TrustZone, dev: FingerprintDevice)
    returns (fingerindex: nat, ghost k: nat, ghost packed: Table, ghost seen: Table)
    requires tz.Valid() && tz.at == Some(Begin) && tz.kind == Authentication && dev.Valid()
    modifies tz`readings, tz`log, tz`at, tz`calibrateLen, tz`calibrateData, dev`notices, dev.finger
    ensures tz.Valid() && tz.at == Some(Closing) && old(tz.log) <= tz.log
    ensures dev.notices == old(dev.notices) + Since(old(tz.log), tz.log)
    ensures fingerindex != 0 ==> |old(tz.log)| <= k && Released(tz.log, k, packed, seen, fingerindex)
  {
    hide tz.Valid, Released, Since;
    fingerindex, k, packed, seen := 0, 0, dev.finger[..], dev.finger[..];
    OpenSession(tz);
    while true
      invariant tz.Valid() && tz.at == Some(Top) && old(tz.log) <= tz.log && fingerindex == 0
      invariant dev.notices == old(dev.notices) + Since(old(tz.log), tz.log)
      decreases |tz.readings|
    {
      ghost var before := tz.log;
      var taken := TakeImage(tz, dev);
      SinceThen(old(tz.log), before, tz.log);
      if !taken {
        break;
      }
      k := |tz.log|;
      before := tz.log;
      var attempt;
      attempt, fingerindex, packed, seen := MatchImage(tz, dev);
      SinceThen(old(tz.log), before, tz.log);
      if attempt != Refused {
        break;
      }
    }
  }

  method OpenSession(tz: TrustZone)
    requires tz.Valid() && tz.at == Some(Begin) && tz.kind == Authentication
    modifies tz`log, tz`at
    ensures tz.Valid() && tz.at == Some(Top) && old(tz.log) <= tz.log && Since(old(tz.log), tz.log) == []
  {
    hide tz.Valid, Since;
    var resp := tz.Ask(VendorUnknown0, 0, 4, []);
    SinceOne(old(tz.log), Sent(VendorUnknown0, 0, 4, [], resp));
  }

  /** The state is tested and an image taken. */
  method TakeImage(tz: TrustZone, dev: FingerprintDevice) returns (taken: bool)
    requires tz.Valid() && tz.at == Some(Top) && tz.kind == Authentication
    modifies tz`readings, tz`log, tz`at, tz`calibrateLen, tz`calibrateData, dev`notices
    ensures tz.Valid() && tz.at == Some(if taken then Match else Closing) && old(tz.log) <= tz.log
    ensures dev.notices == old(dev.notices) + Since(old(tz.log), tz.log)
    ensures if taken then |tz.readings| < |old(tz.readings)| else |tz.readings| <= |old(tz.readings)|
  {
    hide tz.Valid, Since, CaptureOnly;
    CaptureExtends();
    var state := tz.GetState();
    ghost var started := tz.log;
    SinceOne(old(tz.log), Saw(state));
    if state != Scan {
      return false;
    }
    var ret := StartCapture(tz, dev);
    SinceThen(old(tz.log), started, tz.log);
    taken := ret != -1;
  }
}
