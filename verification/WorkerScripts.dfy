/**
 What the trace of a worker looks like, for every reply and every reading of the state word: a
 consequence of following the session machine's program alone.
 */
module WorkerScripts {
  import opened Commands
  import opened Protocol
  import opened Session
  import opened Journal
  import opened WorkerTrace

  /** The commands between the captures and before the app is shut down. */
  predicate IsMain(e: Event) {
    e.Sent? && !IsCaptureCommand(e.command) && e.command != GetAuthToken && e.command != Uninitialize
  }

  /** No command but those of the shutdown. */
  predicate IsQuiet(e: Event) {
    e.Sent? ==> e.command == GetAuthToken || e.command == Uninitialize
  }

  function MainOf(e: Event): seq<Command> {
    if IsMain(e) then [e.command] else []
  }

  function Main(events: seq<Event>): seq<Command> {
    if events == [] then []
    else Main(events[..|events| - 1]) + MainOf(events[|events| - 1])
  }

  function Times(command: Command, n: nat): seq<Command> {
    if n == 0 then [] else Times(command, n - 1) + [command]
  }

  lemma NextNeedsSome(kind: Kind, at: Option<WorkerPc>, e: Event)
    ensures Next(kind, at, e).Some? ==> at.Some?
  {
  }

  /** A prefix of a run is a run that has not ended. */
  lemma {:induction false} FollowPrefix(kind: Kind, events: seq<Event>, k: nat)
    requires Follow(kind, events).Some? && k <= |events|
    ensures Follow(kind, events[..k]).Some?
    ensures k < |events| ==> Follow(kind, events[..k + 1]) == Next(kind, Follow(kind, events[..k]), events[k])
  {
    hide Next;
    if k < |events| {
      assert Follow(kind, events[..|events| - 1]).Some? by {
        NextNeedsSome(kind, Follow(kind, events[..|events| - 1]), events[|events| - 1]);
      }
      var init := events[..|events| - 1];
      FollowPrefix(kind, init, k);
      assert init[..k] == events[..k];
      if k + 1 <= |init| {
        assert init[..k + 1] == events[..k + 1];
      } else {
        assert init == events[..k] && events[..k + 1] == events;
      }
    } else {
      assert events[..k] == events;
    }
  }

  // ----- enrolment

  /** How far an enrolment has come: `done` counts the commands of the opening, or of the completion. */
  datatype Phase = Opening(done: nat) | Taking | Complete | Completing(done: nat) | Ending

  function PhaseOf(pc: WorkerPc): Phase {
    match pc
    case Begin => Opening(0)
    case Begin2 => Opening(1)
    case EnrollNotice(last) => if last then Complete else Taking
    case NoticeLock(next) => if next == ToFinish then Complete else if next == ToDone then Ending else Taking
    case NoticeUnlock(next) => if next == ToFinish then Complete else if next == ToDone then Ending else Taking
    case Finish => Completing(0)
    case Bind1 => Completing(1)
    case Bind2 => Completing(2)
    case Password1 => Completing(3)
    case Password2 => Completing(4)
    case CloseIdle | GiveUpIdle | Closing | Token1 | Token2 | Uninit | UninitIdle | Over => Ending
    case _ => Taking
  }

  /** The points that an enrolment can come to. */
  predicate IsEnrolPc(pc: WorkerPc) {
    match pc
    case Match | Release | FinalIdle | Verdict => false
    case NoticeLock(next) => next != ToClose && next != ToSecondNotice
    case NoticeUnlock(next) => next != ToClose && next != ToSecondNotice
    case _ => true
  }

  const OPENING: seq<Command> := [EnrollBegin, VendorUnknownA]
  const COMPLETION: seq<Command> :=
    [EnrollFinish, PayloadBind, PayloadBind, EnrollmentPasswordSet, EnrollmentPasswordSet]

  predicate LeavesLoop(e: Event) {
    e.Saw? && e.value != WorkerState.Enroll
  }

  /** What an event can do to the phase of an enrolment. */
  predicate PhaseMoves(phase: Phase, e: Event, phase': Phase) {
    match phase
    case Opening(n) =>
      n < 2 && MainOf(e) == [OPENING[n]] && (phase' == Ending || phase' == if n == 0 then Opening(1) else Taking)
    case Taking =>
      if MainOf(e) == [] then phase' == Taking || phase' == Ending || (phase' == Completing(0) && LeavesLoop(e))
      else if ImageOf(e) == [true] then MainOf(e) == [EnrollAddImage] && phase' == Complete
      else MainOf(e) == [EnrollAddImage] && (phase' == Taking || (phase' == Ending && ImageOf(e) == []))
    case Complete => MainOf(e) == [] && !e.Saw? && (phase' == Complete || phase' == Completing(0))
    case Completing(n) => n < 5 && MainOf(e) == [COMPLETION[n]] && phase' == if n < 4 then Completing(n + 1) else Ending
    case Ending => IsQuiet(e) && phase' == Ending
  }

  lemma ImageIsMain(e: Event)
    ensures ImageOf(e) != [] ==> MainOf(e) == [EnrollAddImage]
    ensures |ImageOf(e)| <= 1
  {
  }

  lemma PhaseStepSent(pc: WorkerPc, e: Event)
    requires IsEnrolPc(pc) && e.Sent? && Fits(Enrolment, pc, e)
    ensures var pc' := WorkerNext(Enrolment, pc, See(e)); IsEnrolPc(pc') && PhaseMoves(PhaseOf(pc), e, PhaseOf(pc'))
  {
  }

  lemma PhaseStepOther(pc: WorkerPc, e: Event)
    requires IsEnrolPc(pc) && !e.Sent? && Fits(Enrolment, pc, e)
    ensures var pc' := WorkerNext(Enrolment, pc, See(e)); IsEnrolPc(pc') && PhaseMoves(PhaseOf(pc), e, PhaseOf(pc'))
  {
  }

  /** The commands of an enrolment: so many of the opening, so many images, so many of the completion. */
  function Script(opening: nat, images: nat, completion: nat): seq<Command>
    requires opening <= 2 && completion <= 5
  {
    OPENING[..opening] + Times(EnrollAddImage, images) + COMPLETION[..completion]
  }

  ghost predicate ScriptFits(phase: Phase, opening: nat, images: nat, completion: nat) {
    && opening <= 2 && completion <= 5
    && (opening < 2 ==> images == 0) && (completion > 0 ==> opening == 2)
    && match phase
       case Opening(n) => opening == n < 2 && images == 0 && completion == 0
       case Taking | Complete => opening == 2 && completion == 0
       case Completing(n) => opening == 2 && completion == n < 5
       case Ending => opening > 0 && (completion == 0 || completion == 5)
  }

  /** Appending what one event adds. */
  lemma ScriptGrows(phase: Phase, e: Event, phase': Phase, a: nat, j: nat, n: nat) returns (a': nat, j': nat, n': nat)
    requires PhaseMoves(phase, e, phase') && ScriptFits(phase, a, j, n)
    ensures ScriptFits(phase', a', j', n')
    ensures Script(a, j, n) + MainOf(e) == Script(a', j', n')
  {
    a', j', n' := a, j, n;
    if MainOf(e) == [] {
      assert phase.Taking? || phase.Complete? || phase.Ending?;
    } else if phase.Opening? {
      a' := a + 1;
      assert OPENING[..a'] == OPENING[..a] + MainOf(e);
    } else if phase.Taking? {
      j' := j + 1;
      assert Times(EnrollAddImage, j') == Times(EnrollAddImage, j) + MainOf(e);
    } else {
      n' := n + 1;
      assert COMPLETION[..n'] == COMPLETION[..n] + MainOf(e);
    }
  }

  lemma PhaseStep(at: Option<WorkerPc>, e: Event, pc': WorkerPc)
    requires Next(Enrolment, at, e) == Some(pc')
    ensures at.Some?
    ensures IsEnrolPc(at.value) ==> IsEnrolPc(pc') && PhaseMoves(PhaseOf(at.value), e, PhaseOf(pc'))
  {
    hide WorkerNext, PhaseMoves, PhaseOf, IsEnrolPc, See, Fits;
    if IsEnrolPc(at.value) {
      if e.Sent? {
        PhaseStepSent(at.value, e);
      } else {
        PhaseStepOther(at.value, e);
      }
    }
  }

  /**
   The enrolment trace: the commands are EnrollBegin, UnknownA, images, and the completion, each
   part only after the one before it, and the completion is all or nothing by the end.
   */
  lemma {:induction false} EnrolmentTrace(events: seq<Event>, pc: WorkerPc) returns (a: nat, j: nat, n: nat)
    requires Follow(Enrolment, events) == Some(pc)
    ensures IsEnrolPc(pc) && ScriptFits(PhaseOf(pc), a, j, n)
    ensures Main(events) == Script(a, j, n)
  {
    hide Next, PhaseMoves, ScriptFits, Script, IsEnrolPc, PhaseOf;
    if events == [] {
      a, j, n := 0, 0, 0;
      EmptyScript();
    } else {
      var before, e := events[..|events| - 1], events[|events| - 1];
      PhaseStep(Follow(Enrolment, before), e, pc);
      a, j, n := EnrolmentTrace(before, Follow(Enrolment, before).value);
      a, j, n := ScriptGrows(PhaseOf(Follow(Enrolment, before).value), e, PhaseOf(pc), a, j, n);
    }
  }

  lemma EmptyScript()
    ensures Script(0, 0, 0) == [] && ScriptFits(PhaseOf(Begin), 0, 0, 0) && IsEnrolPc(Begin)
  {
  }

  /** Nothing is captured, added or completed once an enrolment is ending. */
  lemma {:induction false} EndingForGood(events: seq<Event>, k: nat, pc: WorkerPc)
    requires Follow(Enrolment, events) == Some(pc) && k <= |events|
    requires Follow(Enrolment, events[..k]).Some? && PhaseOf(Follow(Enrolment, events[..k]).value) == Ending
    ensures PhaseOf(pc) == Ending && forall m | k <= m < |events| :: IsQuiet(events[m])
  {
    hide Next, PhaseOf, IsEnrolPc;
    if k == |events| {
      assert events[..k] == events;
    } else {
      var before, e := events[..|events| - 1], events[|events| - 1];
      assert before[..k] == events[..k];
      PhaseStep(Follow(Enrolment, before), e, pc);
      EndingForGood(before, k, Follow(Enrolment, before).value);
      StaysEnrolment(before, Follow(Enrolment, before).value);
    }
  }

  lemma StaysEnrolment(events: seq<Event>, pc: WorkerPc)
    requires Follow(Enrolment, events) == Some(pc)
    ensures IsEnrolPc(pc)
  {
    var a, j, n := EnrolmentTrace(events, pc);
  }

  /** The last image taken was the one that the app wanted last. */
  predicate Completed(images: seq<bool>) {
    images != [] && images[|images| - 1]
  }

  /** While images are taken none has completed the enrolment, and then one has. */
  lemma {:induction false} CompletedByPhase(events: seq<Event>, pc: WorkerPc)
    requires Follow(Enrolment, events) == Some(pc)
    ensures PhaseOf(pc).Opening? || PhaseOf(pc).Taking? ==> !Completed(Images(events))
    ensures PhaseOf(pc).Complete? ==> Completed(Images(events))
    ensures PhaseOf(pc) == Completing(0) && events != [] ==>
      (Completed(Images(events)) <==> !LeavesLoop(events[|events| - 1]))
  {
    hide Next, PhaseOf, IsEnrolPc, ScriptFits, Script, Field;
    if events == [] {
      EmptyScript();
      assert PhaseOf(pc) == Opening(0) by { BeginOpens(); }
    } else {
      var before, e := events[..|events| - 1], events[|events| - 1];
      PhaseStep(Follow(Enrolment, before), e, pc);
      var a, j, n := EnrolmentTrace(before, Follow(Enrolment, before).value);
      CompletedByPhase(before, Follow(Enrolment, before).value);
      ImageIsMain(e);
    }
  }

  lemma BeginOpens()
    ensures PhaseOf(Begin) == Opening(0)
  {
  }

  /**
   EnrollFinish is sent after the app had its last image (the countdown is then 0), except exactly
   when the loop was left because the state was read and was no longer ENROLL.
   */
  lemma FinishCause(events: seq<Event>, k: nat)
    requires Follow(Enrolment, events).Some? && k < |events| && events[k].Sent? && events[k].command == EnrollFinish
    ensures k > 0 && (Completed(Images(events[..k])) <==> !LeavesLoop(events[k - 1]))
  {
    hide Follow, WorkerNext, Completed, LeavesLoop, Images;
    FollowPrefix(Enrolment, events, k);
    FollowPrefix(Enrolment, events, k + 1);
    FinishPoint(Follow(Enrolment, events[..k]), events[k]);
    assert events[..k] != [] by { FollowNothing(); }
    CompletedByPhase(events[..k], Finish);
    assert events[..k][k - 1] == events[k - 1];
  }

  /** The exception is real: the state is no longer ENROLL at the first test, and EnrollFinish follows without any image. */
  lemma FinishWithoutImage() returns (events: seq<Event>)
    ensures Follow(Enrolment, events) == Some(Bind1) && |events| == 4
    ensures events[3].Sent? && events[3].command == EnrollFinish && Images(events[..3]) == [] && LeavesLoop(events[2])
  {
    hide Follow, Images;
    var yes: Answer := Response(0, 0, Zeroed(ANSWER_DATA));
    var e0, e1 := Sent(EnrollBegin, 0, 0, [], yes), Sent(VendorUnknownA, 0, 0, [], yes);
    var e2, e3 := Saw(Idle), Sent(EnrollFinish, 0, 0, [], yes);
    FollowNothing();
    FollowAppended(Enrolment, [], e0);
    FollowAppended(Enrolment, [] + [e0], e1);
    FollowAppended(Enrolment, [] + [e0] + [e1], e2);
    FollowAppended(Enrolment, [] + [e0] + [e1] + [e2], e3);
    FirstSteps(e0, e1, e2, e3);
    ImagesAppended([], e0);
    ImagesAppended([] + [e0], e1);
    ImagesAppended([] + [e0] + [e1], e2);
    NoImages();
    events := [] + [e0] + [e1] + [e2] + [e3];
    assert events[..3] == [] + [e0] + [e1] + [e2];
  }

  lemma NoImages()
    ensures Images([]) == []
  {
  }

  lemma FirstSteps(e0: Event, e1: Event, e2: Event, e3: Event)
    requires e0.Sent? && e0.command == EnrollBegin && IsAccepted(e0.answer)
    requires e1.Sent? && e1.command == VendorUnknownA && IsAccepted(e1.answer)
    requires LeavesLoop(e2) && e3.Sent? && e3.command == EnrollFinish
    ensures Next(Enrolment, Some(Begin), e0) == Some(Begin2) && Next(Enrolment, Some(Begin2), e1) == Some(Top)
    ensures Next(Enrolment, Some(Top), e2) == Some(Finish) && Next(Enrolment, Some(Finish), e3) == Some(Bind1)
  {
    hide Field;
  }

  lemma FinishPoint(at: Option<WorkerPc>, e: Event)
    requires Next(Enrolment, at, e).Some? && e.Sent? && e.command == EnrollFinish
    ensures at == Some(Finish) && PhaseOf(Finish) == Completing(0)
  {
    hide WorkerNext;
  }

  lemma FollowNothing()
    ensures Follow(Enrolment, []) == Some(Begin)
  {
  }

  /** An image is added, or matched, directly after a capture that went through or could not even start. */
  lemma ImageNeedsCapture(kind: Kind, events: seq<Event>, k: nat)
    requires Follow(kind, events).Some? && k < |events| && events[k].Sent?
    requires events[k].command == EnrollAddImage || events[k].command == MatchImageToTemplates
    ensures k > 0 && EndsCapture(events[k - 1])
  {
    hide Next, EndsCapture;
    FollowPrefix(kind, events, k);
    FollowPrefix(kind, events, k + 1);
    ImagePoint(kind, Follow(kind, events[..k]), events[k]);
    if k == 0 {
      BeginTakesNoImage();
    } else {
      assert events[..k][..k - 1] == events[..k - 1];
      CaptureEnds(kind, Follow(kind, events[..k - 1]), events[k - 1]);
    }
  }

  /** vcs_start_capture returns something else than -1 after this. */
  predicate EndsCapture(e: Event) {
    e.Sent? &&
      if e.command == CaptureProcessData then IsAccepted(e.answer)
      else e.command == Command.CaptureStart && !IsAccepted(e.answer) && e.answer.ret != -1
  }

  predicate IsImagePoint(pc: WorkerPc) {
    pc == WorkerPc.AddImage || pc == Match
  }

  lemma ImagePoint(kind: Kind, at: Option<WorkerPc>, e: Event)
    requires Next(kind, at, e).Some? && e.Sent?
    requires e.command == EnrollAddImage || e.command == MatchImageToTemplates
    ensures at.Some? && IsImagePoint(at.value)
  {
    hide WorkerNext;
  }

  lemma BeginTakesNoImage()
    ensures !IsImagePoint(Begin)
  {
  }

  lemma CaptureEnds(kind: Kind, at: Option<WorkerPc>, e: Event)
    requires Next(kind, at, e).Some? && IsImagePoint(Next(kind, at, e).value)
    ensures EndsCapture(e)
  {
  }
}
