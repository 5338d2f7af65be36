/**
 The enrolment worker, vcs_enroll: which notices it sends, and which slot it fills with what.
 */
module EnrollWorker {
  import opened Words
  import opened Commands
  import opened Protocol
  import opened Session
  import opened Journal
  import opened WorkerTrace
  import opened TrustZone
  import opened Slots
  import opened Store
  import opened Device
  import opened Notices
  import opened Capture

  /** The remaining count after these images, each of which may have been the last that the app wanted. */
  function Countdown(images: seq<bool>): (count: nat)
    ensures count == 0 <==> images != [] && images[|images| - 1]
  {
    if images == [] then 8
    else if images[|images| - 1] then 0
    else if Countdown(images[..|images| - 1]) <= 2 then 1
    else Countdown(images[..|images| - 1]) - 1
  }

  /** The notices sent for these images. */
  function Progress(fid: nat, images: seq<bool>): seq<Notice> {
    if images == [] then []
    else Progress(fid, images[..|images| - 1]) + [Enrolling(fid, Countdown(images))]
  }

  /** The enrolling notices among these. */
  function Reported(notices: seq<Notice>): seq<Notice> {
    if notices == [] then []
    else Reported(notices[..|notices| - 1]) + (if notices[|notices| - 1].Enrolling? then [notices[|notices| - 1]] else [])
  }

  /** What is said of one command, when these are the images taken up to it and with it. */
  function SaidOf(fid: nat, secure: bool, images: seq<bool>, e: Event): seq<Notice> {
    if ImageOf(e) == [] then Complaint(e) else if secure then [Enrolling(fid, Countdown(images))] else []
  }

  /** Everything that an enrolment into slot fid says, in order: a report for each image, and the complaints. */
  function Said(fid: nat, secure: bool, events: seq<Event>): seq<Notice> {
    if events == [] then []
    else Said(fid, secure, events[..|events| - 1]) + SaidOf(fid, secure, Images(events), events[|events| - 1])
  }

  /** What is said from one moment to another, when the enrolment began at the first. */
  function SaidSince(fid: nat, secure: bool, before: seq<Event>, now: seq<Event>): seq<Notice>
    requires before <= now
  {
    Said(fid, secure, now[|before|..])
  }

  function ImagesSince(before: seq<Event>, now: seq<Event>): seq<bool>
    requires before <= now
  {
    Images(now[|before|..])
  }

  lemma NothingSaid(fid: nat, secure: bool, log: seq<Event>)
    ensures SaidSince(fid, secure, log, log) == [] && ImagesSince(log, log) == []
  {
  }

  /** One more command. */
  lemma SaidNext(fid: nat, secure: bool, before: seq<Event>, now: seq<Event>, e: Event)
    requires before <= now
    ensures before <= now + [e] && ImagesSince(before, now + [e]) == ImagesSince(before, now) + ImageOf(e)
    ensures SaidSince(fid, secure, before, now + [e])
         == SaidSince(fid, secure, before, now) + SaidOf(fid, secure, ImagesSince(before, now + [e]), e)
  {
    hide ImageOf, SaidOf, Images;
    ImagesAppended(now[|before|..], e);
    assert (now + [e])[|before|..] == now[|before|..] + [e];
    assert (now[|before|..] + [e])[..|now| - |before|] == now[|before|..];
  }

  /** While no image is taken only complaints are said. */
  lemma {:induction false} SaidThen(fid: nat, secure: bool, first: seq<Event>, second: seq<Event>, third: seq<Event>)
    requires first <= second && NoImageTaken(second, third)
    ensures first <= third && ImagesSince(first, third) == ImagesSince(first, second)
    ensures SaidSince(fid, secure, first, third) == SaidSince(fid, secure, first, second) + Since(second, third)
    decreases |third|
  {
    hide ImageOf, Complaint, ImagesSince, SaidSince, Since;
    if |second| < |third| {
      var front, e := third[..|third| - 1], third[|third| - 1];
      SaidThen(fid, secure, first, second, front);
      assert third == front + [e];
      SaidNext(fid, secure, first, front, e);
      SinceOne(front, e);
      SinceThen(second, front, third);
    } else {
      assert second == third;
      ContentedSince(second, third);
    }
  }

  lemma {:induction false} ReportedConcat(first: seq<Notice>, rest: seq<Notice>)
    ensures Reported(first + rest) == Reported(first) + Reported(rest)
    decreases |rest|
  {
    if rest == [] {
      assert first + rest == first;
    } else {
      var front := rest[..|rest| - 1];
      assert (first + rest)[..|first + rest| - 1] == first + front;
      ReportedConcat(first, front);
    }
  }

  /** The reports among what is said are those for the images. */
  lemma {:induction false} ReportedSaid(fid: nat, secure: bool, events: seq<Event>)
    ensures Reported(Said(fid, secure, events)) == if secure then Progress(fid, Images(events)) else []
  {
    hide ImageOf, Complaint;
    if events != [] {
      var front, e := events[..|events| - 1], events[|events| - 1];
      ReportedSaid(fid, secure, front);
      ReportedConcat(Said(fid, secure, front), SaidOf(fid, secure, Images(events), e));
      ReportedOne(fid, secure, Images(front), e);
    }
  }

  lemma ReportedOne(fid: nat, secure: bool, images: seq<bool>, e: Event)
    ensures var images' := images + ImageOf(e);
      && (secure ==> Progress(fid, images') == Progress(fid, images) + Reported(SaidOf(fid, secure, images', e)))
      && (!secure ==> Reported(SaidOf(fid, secure, images', e)) == [])
  {
    hide Progress, Countdown, Reported, Field;
    ReportedFew();
    if ImageOf(e) == [] {
      assert images + ImageOf(e) == images;
    } else {
      ProgressAppended(fid, images, ImageOf(e)[0]);
    }
  }

  lemma ReportedFew()
    ensures Reported([]) == []
    ensures forall n: Notice :: Reported([n]) == if n.Enrolling? then [n] else []
  {
    forall n: Notice
      ensures Reported([n]) == if n.Enrolling? then [n] else []
    {
      assert [n][..0] == [];
    }
  }

  ghost predicate NoImageTaken(before: seq<Event>, now: seq<Event>) {
    before <= now && forall k | |before| <= k < |now| :: ImageOf(now[k]) == []
  }

  lemma {:induction false} ImagesKept(before: seq<Event>, now: seq<Event>)
    requires NoImageTaken(before, now)
    ensures Images(now) == Images(before)
  {
    if |before| < |now| {
      ImagesKept(before, now[..|now| - 1]);
    } else {
      assert now == before;
    }
  }

  lemma CaptureTakesNoImage(before: seq<Event>, now: seq<Event>)
    requires CaptureOnly(before, now)
    ensures NoImageTaken(before, now) && NeverFinishes(before, now)
  {
    assert forall k | |before| <= k < |now| :: IsCaptureEvent(now[k]);
  }

  lemma NoImageYet(fid: nat)
    ensures Countdown([]) == 8 && Progress(fid, []) == []
  {
  }

  lemma ProgressAppended(fid: nat, images: seq<bool>, last: bool)
    ensures Countdown(images + [last]) ==
      (if last then 0 else if Countdown(images) <= 2 then 1 else Countdown(images) - 1)
    ensures Progress(fid, images + [last]) == Progress(fid, images) + [Enrolling(fid, Countdown(images + [last]))]
  {
    assert (images + [last])[..|images|] == images;
  }

  /** How an enrolment worker goes on after an image. */
  datatype Progressed = NextImage | LastImage | Gone

  /** EnrollAddImage, and what follows from the reply. */
  method AddImage(tz: TrustZone, dev: FingerprintDevice, idx: nat, count: nat)
    returns (count': nat, progressed: Progressed, ghost e: Event)
    requires tz.Valid() && tz.at == Some(WorkerPc.AddImage) && tz.kind == Enrolment && idx != 0 && count > 0
    modifies tz`log, tz`at, dev`notices
    ensures tz.Valid() && old(tz.log) + [e] <= tz.log && Quietly(old(tz.log) + [e], tz.log)
    ensures tz.at == Some(match progressed case NextImage => Top case LastImage => Finish case Gone => Over)
    ensures e.Sent? && e == Sent(EnrollAddImage, 0, 8, [], e.answer)
    ensures var rejected := e.answer.ret != 0 || e.answer.result != 0;
      && (progressed == Gone <==> e.answer.ret != 0)
      && (progressed == LastImage <==> !rejected && Field(e.answer, 2) == 1)
      && count' == (if rejected then count else if Field(e.answer,
        2) == 1 then 0 else if count == 1 then 1 else count - 1)
      && dev.notices == old(dev.notices) + (
           if e.answer.ret != 0 then [Error(ERROR_UNABLE_TO_PROCESS)]
           else if rejected then [Acquired(false)]
           else if dev.secureUserId == 0 then []
           else [Enrolling(idx, count')])
  {
    hide tz.Valid, WorkerNext, WorkerAction, CommandAt, Quietly, Field;
    AddImageSteps();
    QuietlyGrows();
    count', progressed := count, NextImage;
    var resp := tz.Ask(EnrollAddImage, 0, 8, []);
    e := Sent(EnrollAddImage, 0, 8, [], resp);
    if resp.ret != 0 {
      progressed := Gone;
      GiveUp(tz, dev);
      return;
    }
    if resp.result != 0 {
      SendNotice(tz, dev, Acquired(false), ToTop);
      return;
    }
    count' := CountImage(tz, dev, idx, count, Field(resp, 2) == 1);
    progressed := if count' == 0 then LastImage else NextImage;
  }

  /** The countdown after an image that the app took. */
  method CountImage(tz: TrustZone, dev: FingerprintDevice, idx: nat, count: nat, last: bool) returns (count': nat)
    requires tz.Valid() && tz.at == Some(EnrollNotice(last)) && idx != 0 && count > 0
    modifies tz`log, tz`at, dev`notices
    ensures tz.Valid() && tz.at == Some(if last then Finish else Top)
    ensures Quietly(old(tz.log), tz.log)
    ensures count' == if last then 0 else if count == 1 then 1 else count - 1
    ensures dev.notices == old(dev.notices) + (if dev.secureUserId == 0 then [] else [Enrolling(idx, count')])
  {
    count' := count - 1;
    if last {
      count' := 0;
    }
    if !last && count' == 0 {
      count' := 1;
    }
    SendEnrolling(tz, dev, idx, count', last);
  }

  lemma AddImageSteps()
    ensures CommandAt(Enrolment, WorkerPc.AddImage) == Some(EnrollAddImage)
    ensures forall o: Observed :: o.reply.Failed? ==> WorkerNext(Enrolment, WorkerPc.AddImage, o) == GiveUpIdle
    ensures forall o: Observed :: o.reply.Rejected? ==> WorkerNext(Enrolment, WorkerPc.AddImage, o) == NoticeLock(ToTop)
    ensures forall o: Observed :: o.reply.Accepted? ==> WorkerNext(Enrolment, WorkerPc.AddImage, o) == EnrollNotice(o.reply.last)
  {
  }

  ghost predicate NeverFinishes(before: seq<Event>, now: seq<Event>) {
    before <= now && forall k | |before| <= k < |now| :: now[k].Sent? ==> now[k].command != EnrollFinish
  }

  /** send_enroll_notice, which does nothing without a secure user. */
  method SendEnrolling(tz: TrustZone, dev: FingerprintDevice, fid: nat, remaining: nat, ghost last: bool)
    requires tz.Valid() && tz.at == Some(EnrollNotice(last)) && fid != 0
    modifies tz`log, tz`at, dev`notices
    ensures tz.Valid() && Quietly(old(tz.log), tz.log)
    ensures tz.at == Some(if last then Finish else Top)
    ensures dev.notices == old(dev.notices) + (if dev.secureUserId == 0 then [] else [Enrolling(fid, remaining)])
  {
    hide tz.Valid;
    tz.Note(Tested(dev.secureUserId != 0));
    if dev.secureUserId == 0 {
      return;
    }
    SendNotice(tz, dev, Enrolling(fid, remaining), if last then ToFinish else ToTop);
  }

  /** The early exits: the app is not shut down. */
  method GiveUp(tz: TrustZone, dev: FingerprintDevice)
    requires tz.Valid() && tz.at == Some(GiveUpIdle)
    modifies tz`log, tz`at, dev`notices
    ensures tz.Valid() && tz.at == Some(Over) && Quietly(old(tz.log), tz.log)
    ensures dev.notices == old(dev.notices) + [Error(ERROR_UNABLE_TO_PROCESS)]
  {
    hide tz.Valid;
    tz.Note(Put(Idle));
    SendNotice(tz, dev, Error(ERROR_UNABLE_TO_PROCESS), ToDone);
  }

  /** The two commands that open an enrolment; the first one names the slot. */
  method BeginEnroll(tz: TrustZone, dev: FingerprintDevice, idx: nat) returns (begun: bool)
    requires tz.Valid() && tz.at == Some(Begin) && tz.kind == Enrolment && idx <= MAX_NUM_FINGERS
    modifies tz`log, tz`at, dev`notices
    ensures tz.Valid() && tz.at == Some(if begun then Top else Over)
    ensures NeverFinishes(old(tz.log), tz.log) && NoImageTaken(old(tz.log), tz.log)
    ensures NamesSlot(old(tz.log), tz.log, idx)
    ensures dev.notices == old(dev.notices) + (if begun then [] else [Error(ERROR_UNABLE_TO_PROCESS)])
    ensures dev.notices == old(dev.notices) + Since(old(tz.log), tz.log)
  {
    hide tz.Valid, Since, Complaint, NoImageTaken, NeverFinishes, Quietly;
    FinishesLater();
    var resp := tz.Ask(EnrollBegin, 0, 0, [idx]);
    OpeningSays(old(tz.log), Sent(EnrollBegin, 0, 0, [idx], resp));
    begun := IsAccepted(resp);
    if begun {
      ghost var asked := tz.log;
      resp := tz.Ask(VendorUnknownA, 0, 4, []);
      OpeningSays(asked, Sent(VendorUnknownA, 0, 4, [], resp));
      OpeningThen(old(tz.log), asked, tz.log);
      begun := IsAccepted(resp);
    }
    ghost var answered := tz.log;
    assert NamesSlot(old(tz.log), answered, idx);
    if !begun {
      GiveUp(tz, dev);
      QuietlySince(answered, tz.log);
      QuietTakesNoImage(answered, tz.log);
      OpeningThen(old(tz.log), answered, tz.log);
    }
  }

  lemma OpeningSays(log: seq<Event>, e: Event)
    requires e.Sent? && (e.command == EnrollBegin || e.command == VendorUnknownA)
    ensures Since(log, log + [e]) == if IsAccepted(e.answer) then [] else [Error(ERROR_UNABLE_TO_PROCESS)]
    ensures NoImageTaken(log, log + [e]) && NeverFinishes(log, log + [e])
  {
    hide Since;
    SinceOne(log, e);
  }

  lemma OpeningThen(first: seq<Event>, second: seq<Event>, third: seq<Event>)
    requires NoImageTaken(first, second) && NoImageTaken(second, third)
    ensures NoImageTaken(first, third) && Since(first, third) == Since(first, second) + Since(second, third)
  {
    hide Since, ImageOf;
    SinceThen(first, second, third);
  }

  /** The first command sent is EnrollBegin, with the slot's number. */
  ghost predicate NamesSlot(before: seq<Event>, now: seq<Event>, idx: nat) {
    && before < now && now[|before|].Sent?
    && now[|before|].command == EnrollBegin && now[|before|].len == 0 && now[|before|].want == 0
    && now[|before|].body == [idx]
  }

  lemma SlotNamed(first: seq<Event>, second: seq<Event>, third: seq<Event>, idx: nat)
    requires NamesSlot(first, second, idx) && second <= third
    ensures NamesSlot(first, third, idx)
  {
  }

  lemma NoImage(before: seq<Event>, e: Event)
    ensures !e.Sent? || e.command != EnrollAddImage ==> NoImageTaken(before, before + [e])
  {
  }

  /** The loop of vcs_enroll: images are taken until the app has enough, or the state is no longer ENROLL. */
  method TakeImages(tz: TrustZone, dev: FingerprintDevice, idx: nat) returns (ended: Ended, ghost images: seq<bool>)
    requires tz.Valid() && tz.at == Some(Top) && tz.kind == Enrolment && idx != 0
    modifies tz`readings, tz`log, tz`at, tz`calibrateLen, tz`calibrateData, dev`notices
    ensures tz.Valid() && NeverFinishes(old(tz.log), tz.log)
    ensures tz.at == Some(match ended case Finishing => Finish case CaptureStopped => CloseIdle case GivenUp => Over)
    ensures images == ImagesSince(old(tz.log), tz.log)
    ensures forall i | 0 <= i < |images| - 1 :: !images[i]
    ensures dev.notices == old(dev.notices) + SaidSince(idx, dev.secureUserId != 0, old(tz.log), tz.log)
  {
    hide tz.Valid, Countdown, NeverFinishes, NoImageTaken, SaidSince, ImagesSince, Quietly, Field;
    FinishesLater();
    NoImageYet(idx);
    NothingSaid(idx, dev.secureUserId != 0, tz.log);
    images := [];
    var count := 8;
    while true
      invariant tz.Valid() && tz.at == Some(Top) && NeverFinishes(old(tz.log), tz.log)
      invariant images == ImagesSince(old(tz.log), tz.log)
      invariant count == Countdown(images) && forall i | 0 <= i < |images| :: !images[i]
      invariant dev.notices == old(dev.notices) + SaidSince(idx, dev.secureUserId != 0, old(tz.log), tz.log)
      decreases |tz.readings|
    {
      ghost var before := tz.log;
      var ready;
      ready, ended := AwaitImage(tz, dev);
      SaidThen(idx, dev.secureUserId != 0, old(tz.log), before, tz.log);
      if !ready {
        return;
      }
      var progressed;
      ghost var said;
      count, progressed, said := CountedImage(tz, dev, idx, count, old(tz.log));
      images := ImagesSince(old(tz.log), tz.log);
      if progressed != NextImage {
        ended := if progressed == LastImage then Finishing else GivenUp;
        return;
      }
    }
  }

  /** AddImage, seen from the beginning of the enrolment. */
  method CountedImage(tz: TrustZone, dev: FingerprintDevice, idx: nat, count: nat, ghost begun: seq<Event>)
    returns (count': nat, progressed: Progressed, ghost said: seq<Notice>)
    requires tz.Valid() && tz.at == Some(WorkerPc.AddImage) && tz.kind == Enrolment && idx != 0 && count > 0
    requires begun <= tz.log && count == Countdown(ImagesSince(begun, tz.log))
    modifies tz`log, tz`at, dev`notices
    ensures tz.Valid() && begun <= tz.log && NeverFinishes(old(tz.log), tz.log)
    ensures tz.at == Some(match progressed case NextImage => Top case LastImage => Finish case Gone => Over)
    ensures count' == Countdown(ImagesSince(begun, tz.log))
    ensures progressed == LastImage ==> ImagesSince(begun, tz.log) == ImagesSince(begun, old(tz.log)) + [true]
    ensures progressed != LastImage ==>
      || ImagesSince(begun, tz.log) == ImagesSince(begun, old(tz.log))
      || ImagesSince(begun, tz.log) == ImagesSince(begun, old(tz.log)) + [false]
    ensures dev.notices == old(dev.notices) + said
    ensures SaidSince(idx, dev.secureUserId != 0, begun, tz.log)
         == SaidSince(idx, dev.secureUserId != 0, begun, old(tz.log)) + said
  {
    hide tz.Valid, Countdown, NeverFinishes, SaidSince, ImagesSince, Quietly, Field;
    QuietlyGrows();
    ghost var e;
    count', progressed, e := AddImage(tz, dev, idx, count);
    SaidByImage(idx, dev.secureUserId != 0, begun, old(tz.log), tz.log, e, count);
    said := dev.notices[|old(dev.notices)|..];
  }

  lemma FinishesLater()
    ensures forall a: seq<Event> :: NeverFinishes(a, a)
    ensures forall a, b | NeverFinishes(a, b) :: a <= b
    ensures forall a, b, c | NeverFinishes(a, b) && NeverFinishes(b, c) :: NeverFinishes(a, c)
  {
  }

  /** What AddImage says and how it counts, in terms of all images since the enrolment began. */
  lemma SaidByImage(fid: nat, secure: bool, first: seq<Event>, second: seq<Event>, third: seq<Event>, e: Event,
    count: nat)
    requires first <= second && e.Sent? && e.command == EnrollAddImage && Quietly(second + [e], third)
    requires count == Countdown(ImagesSince(first, second)) && count > 0
    ensures NeverFinishes(second, third) && first <= third
    ensures var rejected, last := e.answer.ret != 0 || e.answer.result != 0, Field(e.answer, 2) == 1;
      var count' := if rejected then count else if last then 0 else if count == 1 then 1 else count - 1;
      && ImagesSince(first, third) == ImagesSince(first, second) + (if rejected then [] else [last])
      && Countdown(ImagesSince(first, third)) == count'
      && SaidSince(fid, secure, first, third) == SaidSince(fid, secure, first, second) + (
           if e.answer.ret != 0 then [Error(ERROR_UNABLE_TO_PROCESS)]
           else if rejected then [Acquired(false)]
           else if !secure then []
           else [Enrolling(fid, count')])
  {
    hide ImagesSince, SaidSince, Countdown, Since, Quietly, Field;
    SaidNext(fid, secure, first, second, e);
    QuietlySince(second + [e], third);
    QuietTakesNoImage(second + [e], third);
    SaidThen(fid, secure, first, second + [e], third);
    var rejected, last := e.answer.ret != 0 || e.answer.result != 0, Field(e.answer, 2) == 1;
    if !rejected {
      ProgressAppended(fid, ImagesSince(first, second), last);
    } else {
      assert ImagesSince(first, second) + [] == ImagesSince(first, second);
    }
  }

  lemma QuietTakesNoImage(before: seq<Event>, now: seq<Event>)
    requires Quietly(before, now)
    ensures NoImageTaken(before, now) && NeverFinishes(before, now)
  {
    CaptureTakesNoImage(before, now);
  }

  /** The state is tested and an image captured. */
  method AwaitImage(tz: TrustZone, dev: FingerprintDevice) returns (ready: bool, ended: Ended)
    requires tz.Valid() && tz.at == Some(Top) && tz.kind == Enrolment
    modifies tz`readings, tz`log, tz`at, tz`calibrateLen, tz`calibrateData, dev`notices
    ensures tz.Valid() && NeverFinishes(old(tz.log), tz.log) && NoImageTaken(old(tz.log), tz.log)
    ensures ended == Finishing || ended == CaptureStopped
    ensures tz.at == Some(if ready then WorkerPc.AddImage else if ended == Finishing then Finish else CloseIdle)
    ensures dev.notices == old(dev.notices) + Since(old(tz.log), tz.log)
    ensures if ready then |tz.readings| < |old(tz.readings)| else |tz.readings| <= |old(tz.readings)|
  {
    hide tz.Valid, Since, ImageOf, CaptureOnly;
    ended := Finishing;
    var state := tz.GetState();
    ghost var started := tz.log;
    NoImage(old(tz.log), Saw(state));
    SinceOne(old(tz.log), Saw(state));
    if state != WorkerState.Enroll {
      return false, ended;
    }
    var ret := StartCapture(tz, dev);
    CaptureTakesNoImage(started, tz.log);
    SinceThen(old(tz.log), started, tz.log);
    ready, ended := ret != -1, CaptureStopped;
  }

  datatype Ended = Finishing | CaptureStopped | GivenUp

  // ----- the end of an enrolment

  /** The commands that complete an enrolment, with the session token wherever it is needed. */
  ghost predicate Completes(finish: seq<Event>, sessionToken: seq<Byte>) {
    && |finish| == 5 && (forall i | 0 <= i < 5 :: finish[i].Sent?)
    && finish[0] == Sent(EnrollFinish, AUTH_SESSION_TOKEN_LENGTH, 0x2845, sessionToken, finish[0].answer)
    && finish[1] == Sent(PayloadBind, 1, 0, USER, finish[1].answer)
    && finish[2] == Sent(PayloadBind, 1, 0x50, USER, finish[2].answer)
    && finish[3] == Sent(EnrollmentPasswordSet, AUTH_SESSION_TOKEN_LENGTH, 0x90, sessionToken, finish[3].answer)
    && finish[4] == Sent(EnrollmentPasswordSet, AUTH_SESSION_TOKEN_LENGTH, 0x80, sessionToken, finish[4].answer)
  }

  /** The slot gets the template of the first reply and the payload of the third, whatever these replies say. */
  method SaveFinger(tz: TrustZone, dev: FingerprintDevice, idx: nat, inserted: bool) returns (ghost finish: seq<Event>)
    requires tz.Valid() && tz.at == Some(Finish) && dev.Valid() && 1 <= idx <= MAX_NUM_FINGERS
    modifies tz`log, tz`at, dev`tables, dev.finger
    ensures tz.Valid() && tz.at == Some(CloseIdle)
    ensures tz.log == old(tz.log) + finish && Completes(finish, tz.sessionToken)
    ensures dev.View() == Saved(old(dev.View()), idx, Copied(finish[0].answer, FINGER_DATA_MAX_LENGTH),
                                Copied(finish[2].answer, PAYLOAD_MAX_LENGTH), inserted)
    ensures dev.finger[idx].exist && dev.finger[idx].data == Copied(finish[0].answer, FINGER_DATA_MAX_LENGTH)
    ensures dev.finger[idx].payload == Copied(finish[2].answer, PAYLOAD_MAX_LENGTH)
    ensures forall i | 0 <= i <= MAX_NUM_FINGERS && i != idx :: dev.finger[i] == old(dev.finger[i])
    ensures dev.tables == if inserted && dev.activeGid in old(dev.tables)
      then old(dev.tables)[dev.activeGid := old(dev.tables)[dev.activeGid]
                                              + [Row(idx, dev.finger[idx].data, dev.finger[idx].payload)]]
      else old(dev.tables)
  {
    hide tz.Valid, Copied;
    var resp;
    ghost var bound, passwords;
    resp, finish := FinishEnroll(tz);
    dev.finger[idx] := Finger(dev.finger[idx].exist, Copied(resp, FINGER_DATA_MAX_LENGTH), dev.finger[idx].payload);
    resp, bound := BindPayload(tz);
    dev.finger[idx] := Finger(true, dev.finger[idx].data, Copied(resp, PAYLOAD_MAX_LENGTH));
    dev.InsertIntoDb(idx, inserted);
    passwords := SetPassword(tz);
    finish := finish + bound + passwords;
  }

  method FinishEnroll(tz: TrustZone) returns (resp: Answer, ghost sent: seq<Event>)
    requires tz.Valid() && tz.at == Some(Finish)
    modifies tz`log, tz`at
    ensures tz.Valid() && tz.at == Some(Bind1) && tz.log == old(tz.log) + sent
    ensures sent == [Sent(EnrollFinish, AUTH_SESSION_TOKEN_LENGTH, 0x2845, tz.sessionToken, resp)]
  {
    hide tz.Valid, HandOver;
    SessionTokenKept(tz);
    resp := tz.Ask(EnrollFinish, AUTH_SESSION_TOKEN_LENGTH, 0x2845, tz.sessionToken);
    sent := [Sent(EnrollFinish, AUTH_SESSION_TOKEN_LENGTH, 0x2845, tz.sessionToken, resp)];
  }

  lemma SessionTokenKept(tz: TrustZone)
    requires tz.Valid()
    ensures tz.sessionToken == SessionToken(tz.log)
  {
  }

  /** Sent twice; the second reply holds the payload. */
  method BindPayload(tz: TrustZone) returns (resp: Answer, ghost sent: seq<Event>)
    requires tz.Valid() && tz.at == Some(Bind1)
    modifies tz`log, tz`at
    ensures tz.Valid() && tz.at == Some(Password1) && tz.log == old(tz.log) + sent
    ensures |sent| == 2 && sent[0].Sent? && sent[0] == Sent(PayloadBind, 1, 0, USER, sent[0].answer)
    ensures sent[1] == Sent(PayloadBind, 1, 0x50, USER, resp)
  {
    hide tz.Valid;
    resp := tz.Ask(PayloadBind, 1, 0, USER);
    sent := [Sent(PayloadBind, 1, 0, USER, resp)];
    resp := tz.Ask(PayloadBind, 1, 0x50, USER);
    sent := sent + [Sent(PayloadBind, 1, 0x50, USER, resp)];
  }

  /** "User_0" */
  const USER: seq<Byte> := [0x55, 0x73, 0x65, 0x72, 0x5f, 0x30, 0]

  method SetPassword(tz: TrustZone) returns (ghost sent: seq<Event>)
    requires tz.Valid() && tz.at == Some(Password1)
    modifies tz`log, tz`at
    ensures tz.Valid() && tz.at == Some(CloseIdle) && tz.log == old(tz.log) + sent
    ensures |sent| == 2 && sent[0].Sent? && sent[1].Sent?
    ensures sent[0] == Sent(EnrollmentPasswordSet, AUTH_SESSION_TOKEN_LENGTH, 0x90, tz.sessionToken, sent[0].answer)
    ensures sent[1] == Sent(EnrollmentPasswordSet, AUTH_SESSION_TOKEN_LENGTH, 0x80, tz.sessionToken, sent[1].answer)
  {
    hide tz.Valid, WorkerNext, WorkerAction, CommandAt;
    PasswordSteps(tz.kind);
    SessionTokenKept(tz);
    var resp := tz.Ask(EnrollmentPasswordSet, AUTH_SESSION_TOKEN_LENGTH, 0x90, tz.sessionToken);
    sent := [Sent(EnrollmentPasswordSet, AUTH_SESSION_TOKEN_LENGTH, 0x90, tz.sessionToken, resp)];
    SessionTokenKept(tz);
    resp := tz.Ask(EnrollmentPasswordSet, AUTH_SESSION_TOKEN_LENGTH, 0x80, tz.sessionToken);
    sent := sent + [Sent(EnrollmentPasswordSet, AUTH_SESSION_TOKEN_LENGTH, 0x80, tz.sessionToken, resp)];
  }

  lemma PasswordSteps(kind: Kind)
    ensures CommandAt(kind, Password1) == CommandAt(kind, Password2) == Some(EnrollmentPasswordSet)
    ensures forall o: Observed :: WorkerNext(kind, Password1, o) == Password2
    ensures forall o: Observed :: WorkerNext(kind, Password2, o) == CloseIdle
  {
  }

  // ----- the whole worker

  /** Closing the session after the images. */
  method CloseEnroll(tz: TrustZone)
    requires tz.Valid() && tz.at == Some(CloseIdle) && tz.kind == Enrolment
    modifies tz`log, tz`at, tz`init, tz`authToken
    ensures tz.Valid() && tz.at == Some(Over) && !tz.init
    ensures NeverFinishes(old(tz.log), tz.log) && NoImageTaken(old(tz.log), tz.log) && Since(old(tz.log), tz.log) == []
  {
    hide tz.Valid, Since;
    tz.Note(Put(Idle));
    ghost var closing := tz.log;
    ghost var fetched, answer;
    ghost var session := tz.authSessionOpened;
    fetched, answer := tz.Uninit();
    ShutdownIsQuiet(closing, session, fetched, answer);
    ContentedSince(old(tz.log), tz.log);
  }

  lemma ShutdownIsQuiet(log: seq<Event>, session: bool, fetched: seq<Event>, answer: Answer)
    requires Fetches(session, fetched)
    ensures var log' := log + fetched + [Sent(Uninitialize, 0, 0, [], answer), Put(Idle)];
      NoImageTaken(log, log') && NeverFinishes(log, log') && Contented(log, log')
  {
    hide Field;
    assert session ==> fetched[1..][0] == fetched[1] && fetched[1..][1] == fetched[2];
  }

  lemma CompletionIsQuiet(log: seq<Event>, finish: seq<Event>, sessionToken: seq<Byte>)
    requires Completes(finish, sessionToken)
    ensures |finish| == 5 && NoImageTaken(log, log + finish) && log <= log + finish && Since(log, log + finish) == []
  {
    assert forall i | 0 <= i < 5 :: finish[i].Sent? && finish[i].command in COMPLETION;
    hide Completes;
    ContentedSince(log, log + finish);
  }

  const COMPLETION := {EnrollFinish, PayloadBind, EnrollmentPasswordSet}

  /** Just one place in the log, after `before`, holds the commands that complete an enrolment. */
  ghost predicate FinishesOnce(before: seq<Event>, now: seq<Event>, k: nat, finish: seq<Event>,
    sessionToken: seq<Byte>) {
    && |before| <= k && k + 5 <= |now| && now[k..k + 5] == finish && Completes(finish, sessionToken)
    && NeverFinishes(before, now[..k]) && NeverFinishes(now[..k + 5], now)
  }

  /**
   vcs_enroll, with a slot free and nobody else changing the slots: the images that the app took
   are reported, and the lowest free slot is filled and inserted once, or nothing is.
   */
  method Enroll(tz: TrustZone, dev: FingerprintDevice, inserted: bool)
    returns (ghost idx: nat, ghost images: seq<bool>, ghost finish: seq<Event>, ghost k: nat)
    requires tz.Valid() && tz.at == Some(Begin) && tz.kind == Enrolment && dev.Valid()
    requires exists i | 1 <= i <= MAX_NUM_FINGERS :: !dev.finger[..][i].exist
    modifies tz`readings, tz`log, tz`at, tz`calibrateLen, tz`calibrateData, tz`init, tz`authToken
    modifies dev`notices, dev`tables, dev.finger
    ensures tz.Valid() && tz.at == Some(Over) && old(tz.log) <= tz.log
    ensures idx <= MAX_NUM_FINGERS && IsLowestFree(old(dev.finger[..]), idx)
    ensures NamesSlot(old(tz.log), tz.log, idx)
    ensures images == ImagesSince(old(tz.log), tz.log) && forall i | 0 <= i < |images| - 1 :: !images[i]
    ensures dev.notices == old(dev.notices) + SaidSince(idx, dev.secureUserId != 0, old(tz.log), tz.log)
    ensures Reported(dev.notices) == Reported(old(dev.notices)) + (if dev.secureUserId == 0 then [] else Progress(idx,
      images))
    ensures finish == [] ==> dev.View() == old(dev.View()) && NeverFinishes(old(tz.log), tz.log)
    ensures finish != [] ==>
      && FinishesOnce(old(tz.log), tz.log, k, finish, tz.sessionToken)
      && dev.View() == Saved(old(dev.View()), idx, Copied(finish[0].answer, FINGER_DATA_MAX_LENGTH),
                             Copied(finish[2].answer, PAYLOAD_MAX_LENGTH), inserted)
  {
    hide tz.Valid, SaidSince, ImagesSince, Copied, FinishesOnce, Saved, IsLowestFree, NoImageTaken, NeverFinishes,
      NamesSlot;
    FinishesLater();
    finish := [];
    var slot := FindFree(dev.finger);
    FreeSlotExists(dev.finger[..], slot);
    idx := slot;
    var ended;
    ended, images := EnrollImages(tz, dev, slot);
    k := |tz.log|;
    ghost var taken := tz.log;
    if ended != GivenUp {
      finish := EndEnroll(tz, dev, slot, inserted, ended == Finishing);
      SaidThen(slot, dev.secureUserId != 0, old(tz.log), taken, tz.log);
      FinishedLater(old(tz.log), taken, tz.log, finish, tz.sessionToken);
      SlotNamed(old(tz.log), taken, tz.log, slot);
    }
    ReportedSince(slot, dev.secureUserId != 0, old(tz.log), tz.log, old(dev.notices));
  }

  /** The part of vcs_enroll that takes images. */
  method EnrollImages(tz: TrustZone, dev: FingerprintDevice, idx: nat) returns (ended: Ended, ghost images: seq<bool>)
    requires tz.Valid() && tz.at == Some(Begin) && tz.kind == Enrolment && 1 <= idx <= MAX_NUM_FINGERS
    modifies tz`readings, tz`log, tz`at, tz`calibrateLen, tz`calibrateData, dev`notices
    ensures tz.Valid() && NeverFinishes(old(tz.log), tz.log)
    ensures tz.at == Some(match ended case Finishing => Finish case CaptureStopped => CloseIdle case GivenUp => Over)
    ensures NamesSlot(old(tz.log), tz.log, idx)
    ensures images == ImagesSince(old(tz.log), tz.log) && forall i | 0 <= i < |images| - 1 :: !images[i]
    ensures dev.notices == old(dev.notices) + SaidSince(idx, dev.secureUserId != 0, old(tz.log), tz.log)
  {
    hide tz.Valid, Since, SaidSince, ImagesSince, NoImageTaken, NeverFinishes, NamesSlot;
    FinishesLater();
    ghost var secure := dev.secureUserId != 0;
    NothingSaid(idx, secure, tz.log);
    var begun := BeginEnroll(tz, dev, idx);
    SaidThen(idx, secure, old(tz.log), old(tz.log), tz.log);
    ended, images := GivenUp, [];
    if begun {
      ghost var ready := tz.log;
      ended, images := TakeImages(tz, dev, idx);
      SaidLater(idx, secure, old(tz.log), ready, tz.log);
      SlotNamed(old(tz.log), ready, tz.log, idx);
    }
  }

  /** The end of an enrolment that was not given up: the slot is filled if the loop ended by itself. */
  method EndEnroll(tz: TrustZone, dev: FingerprintDevice, idx: nat, inserted: bool, finishing: bool)
    returns (ghost finish: seq<Event>)
    requires tz.Valid() && tz.at == Some(if finishing then Finish else CloseIdle) && tz.kind == Enrolment
    requires dev.Valid() && 1 <= idx <= MAX_NUM_FINGERS
    modifies tz`log, tz`at, tz`init, tz`authToken, dev`tables, dev.finger
    ensures tz.Valid() && tz.at == Some(Over) && old(tz.log) <= tz.log
    ensures NoImageTaken(old(tz.log), tz.log) && Since(old(tz.log), tz.log) == []
    ensures !finishing ==> finish == [] && dev.View() == old(dev.View()) && NeverFinishes(old(tz.log), tz.log)
    ensures finishing ==>
      && finish != [] && FinishesOnce(old(tz.log), tz.log, |old(tz.log)|, finish, tz.sessionToken)
      && dev.View() == Saved(old(dev.View()), idx, Copied(finish[0].answer, FINGER_DATA_MAX_LENGTH),
                             Copied(finish[2].answer, PAYLOAD_MAX_LENGTH), inserted)
  {
    hide tz.Valid, Since, Copied, Completes, Saved, ImageOf;
    finish := [];
    if finishing {
      finish := SaveFinger(tz, dev, idx, inserted);
      CompletionIsQuiet(old(tz.log), finish, tz.sessionToken);
      assert tz.log[|old(tz.log)|..|old(tz.log)| + 5] == finish && tz.log[..|old(tz.log)|] == old(tz.log);
    }
    ghost var saved := tz.log;
    CloseEnroll(tz);
    if finishing {
      SinceThen(old(tz.log), saved, tz.log);
      assert tz.log[..|old(tz.log)| + 5] == saved;
      assert tz.log[|old(tz.log)|..|old(tz.log)| + 5] == finish;
    }
  }

  /** What happens at the end happens once in the whole. */
  lemma FinishedLater(first: seq<Event>, second: seq<Event>, third: seq<Event>, finish: seq<Event>,
    sessionToken: seq<Byte>)
    requires NeverFinishes(first, second) && second <= third
    ensures NeverFinishes(second, third) ==> NeverFinishes(first, third)
    ensures FinishesOnce(second, third, |second|, finish, sessionToken) ==>
      FinishesOnce(first, third, |second|, finish, sessionToken)
  {
    hide Completes;
    assert third[..|second|] == second;
  }

  lemma ReportedSince(fid: nat, secure: bool, before: seq<Event>, now: seq<Event>, notices: seq<Notice>)
    requires before <= now
    ensures Reported(notices + SaidSince(fid, secure, before, now))
         == Reported(notices) + (if secure then Progress(fid, ImagesSince(before, now)) else [])
  {
    ReportedConcat(notices, SaidSince(fid, secure, before, now));
    ReportedSaid(fid, secure, now[|before|..]);
  }

  /** An opening without images can be left out of account. */
  lemma {:induction false} SaidLater(fid: nat, secure: bool, first: seq<Event>, second: seq<Event>, third: seq<Event>)
    requires NoImageTaken(first, second) && second <= third
    ensures first <= second && ImagesSince(first, third) == ImagesSince(second, third)
    ensures SaidSince(fid, secure, first, third) == Since(first, second) + SaidSince(fid, secure, second, third)
    decreases |third|
  {
    hide ImageOf, Complaint, ImagesSince, SaidSince, Since, SaidOf;
    if |second| < |third| {
      var front, e := third[..|third| - 1], third[|third| - 1];
      SaidLater(fid, secure, first, second, front);
      assert third == front + [e];
      SaidNext(fid, secure, first, front, e);
      SaidNext(fid, secure, second, front, e);
    } else {
      assert second == third;
      NothingSaid(fid, secure, first);
      NothingSaid(fid, secure, second);
      SaidThen(fid, secure, first, first, second);
    }
  }

  lemma FreeSlotExists(slots: Table, idx: nat)
    requires IsLowestFree(slots, idx) && exists i | 1 <= i <= MAX_NUM_FINGERS :: !slots[i].exist
    ensures 1 <= idx <= MAX_NUM_FINGERS
  {
  }

  // ----- what the notices say

  lemma {:induction false} CountdownWhileWaiting(images: seq<bool>)
    requires forall i | 0 <= i < |images| :: !images[i]
    ensures Countdown(images) == if |images| < 8 then 8 - |images| else 1
  {
    if images != [] {
      CountdownWhileWaiting(images[..|images| - 1]);
    }
  }

  /** The n-th report, counted from 0, is max(7 - n, 1), or 0 exactly for the image that completes the enrolment. */
  lemma {:induction false} ProgressClosedForm(fid: nat, images: seq<bool>, n: nat)
    requires n < |images| && forall i | 0 <= i < |images| - 1 :: !images[i]
    ensures |Progress(fid, images)| == |images|
    ensures Progress(fid, images)[n] == Enrolling(fid, if images[n] then 0 else if n < 7 then 7 - n else 1)
  {
    var last := |images| - 1;
    if last > 0 {
      ProgressClosedForm(fid, images[..last], if n < last then n else 0);
    }
    if n == last && !images[n] {
      CountdownWhileWaiting(images);
    }
  }
}
