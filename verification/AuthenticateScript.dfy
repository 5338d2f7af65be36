/**
 What the trace of an authenticate worker looks like: at most one match is accepted, a payload is
 released exactly after it, and nothing of the kind follows a capture that ended the session.
 */
module AuthenticateScript {
  import opened Commands
  import opened Protocol
  import opened Session
  import opened Journal
  import opened WorkerTrace
  import opened WorkerScripts

  datatype Stage = Greeting | Trying | Releasing | Ended

  function StageOf(pc: WorkerPc): Stage {
    match pc
    case Begin => Greeting
    case Release => Releasing
    case Closing | Token1 | Token2 | Uninit | UninitIdle | FinalIdle | Verdict | Over => Ended
    case NoticeLock(next) => if next == ToCapture || next == ToTop then Trying else Ended
    case NoticeUnlock(next) => if next == ToCapture || next == ToTop then Trying else Ended
    case _ => Trying
  }

  /** The points that an authentication can come to. */
  predicate IsAuthPc(pc: WorkerPc) {
    match pc
    case Begin2 | AddImage | EnrollNotice(_) | Finish | Bind1 | Bind2 | Password1 | Password2 | CloseIdle | GiveUpIdle => false
    case NoticeLock(next) => next != ToFinish
    case NoticeUnlock(next) => next != ToFinish
    case _ => true
  }

  predicate IsMatch(e: Event) {
    e.Sent? && e.command == MatchImageToTemplates && IsAccepted(e.answer)
  }

  /** What an event can do to the stage of an authentication. */
  predicate StageMoves(stage: Stage, e: Event, stage': Stage) {
    match stage
    case Greeting => MainOf(e) == [VendorUnknown0] && stage' == Trying
    case Trying =>
      if MainOf(e) == [] then stage' == Trying || stage' == Ended
      else if IsMatch(e) then stage' == Releasing
      else MainOf(e) == [MatchImageToTemplates] && (stage' == Trying || stage' == Ended)
    case Releasing => MainOf(e) == [PayloadRelease] && stage' == Ended
    case Ended => IsQuiet(e) && stage' == Ended
  }

  lemma MatchIsMain(e: Event)
    ensures IsMatch(e) ==> MainOf(e) == [MatchImageToTemplates]
  {
  }

  lemma StageStepSent(pc: WorkerPc, e: Event)
    requires IsAuthPc(pc) && e.Sent? && Fits(Authentication, pc, e)
    ensures var pc' := WorkerNext(Authentication, pc, See(e)); IsAuthPc(pc') && StageMoves(StageOf(pc), e, StageOf(pc'))
  {
  }

  lemma StageStepOther(pc: WorkerPc, e: Event)
    requires IsAuthPc(pc) && !e.Sent? && Fits(Authentication, pc, e)
    ensures var pc' := WorkerNext(Authentication, pc, See(e)); IsAuthPc(pc') && StageMoves(StageOf(pc), e, StageOf(pc'))
  {
  }

  lemma StageStep(at: Option<WorkerPc>, e: Event, pc': WorkerPc)
    requires Next(Authentication, at, e) == Some(pc')
    ensures at.Some?
    ensures IsAuthPc(at.value) ==> IsAuthPc(pc') && StageMoves(StageOf(at.value), e, StageOf(pc'))
  {
    hide WorkerNext, StageMoves, StageOf, IsAuthPc, See, Fits;
    if IsAuthPc(at.value) {
      if e.Sent? {
        StageStepSent(at.value, e);
      } else {
        StageStepOther(at.value, e);
      }
    }
  }

  function Matches(events: seq<Event>): nat {
    if events == [] then 0
    else Matches(events[..|events| - 1]) + (if IsMatch(events[|events| - 1]) then 1 else 0)
  }

  /** The commands of an authentication, and how many of its matches were accepted. */
  ghost predicate StageFits(stage: Stage, main: seq<Command>, matches: nat, tries: nat) {
    match stage
    case Greeting => main == [] && matches == 0
    case Trying => main == [VendorUnknown0] + Times(MatchImageToTemplates, tries) && matches == 0
    case Releasing => main == [VendorUnknown0] + Times(MatchImageToTemplates, tries) && matches == 1
    case Ended =>
      matches <= 1 && main == [VendorUnknown0] + Times(MatchImageToTemplates,
        tries) + (if matches == 1 then [PayloadRelease] else [])
  }

  lemma StageGrows(stage: Stage, e: Event, stage': Stage, main: seq<Command>, matches: nat, tries: nat)
    returns (tries': nat)
    requires StageMoves(stage, e, stage') && StageFits(stage, main, matches, tries)
    ensures StageFits(stage', main + MainOf(e), matches + (if IsMatch(e) then 1 else 0), tries')
  {
    MatchIsMain(e);
    tries' := tries;
    if MainOf(e) == [] {
      assert main + MainOf(e) == main;
    } else if stage.Greeting? {
      tries' := 0;
      assert main + MainOf(e) == [VendorUnknown0] + Times(MatchImageToTemplates, 0);
    } else if stage.Trying? {
      tries' := tries + 1;
      assert Times(MatchImageToTemplates, tries') == Times(MatchImageToTemplates, tries) + MainOf(e);
    }
  }

  /**
   The authentication trace: a greeting, matches, and by the end one release of a payload exactly
   if the app accepted a match, which it did at most once.
   */
  lemma {:induction false} AuthenticationTrace(events: seq<Event>, pc: WorkerPc) returns (tries: nat)
    requires Follow(Authentication, events) == Some(pc)
    ensures IsAuthPc(pc) && StageFits(StageOf(pc), Main(events), Matches(events), tries)
  {
    hide Next, StageMoves, StageFits, IsAuthPc, StageOf;
    if events == [] {
      tries := 0;
      BeginGreets();
    } else {
      var before, e := events[..|events| - 1], events[|events| - 1];
      StageStep(Follow(Authentication, before), e, pc);
      tries := AuthenticationTrace(before, Follow(Authentication, before).value);
      tries := StageGrows(StageOf(Follow(Authentication, before).value), e, StageOf(pc), Main(before),
        Matches(before), tries);
    }
  }

  lemma BeginGreets()
    ensures StageOf(Begin) == Greeting && IsAuthPc(Begin) && StageFits(Greeting, [], 0, 0)
  {
  }

  /** Nothing is captured, matched or released once the session is ended. */
  lemma {:induction false} EndedForGood(events: seq<Event>, k: nat, pc: WorkerPc)
    requires Follow(Authentication, events) == Some(pc) && k <= |events|
    requires Follow(Authentication, events[..k]).Some? && StageOf(Follow(Authentication, events[..k]).value) == Ended
    ensures StageOf(pc) == Ended && Main(events) == Main(events[..k])
    ensures forall m | k <= m < |events| :: IsQuiet(events[m])
  {
    hide Next, StageOf, IsAuthPc;
    if k == |events| {
      assert events[..k] == events;
    } else {
      var before, e := events[..|events| - 1], events[|events| - 1];
      assert before[..k] == events[..k];
      StageStep(Follow(Authentication, before), e, pc);
      StaysAuthentication(before, Follow(Authentication, before).value);
      EndedForGood(before, k, Follow(Authentication, before).value);
    }
  }

  lemma StaysAuthentication(events: seq<Event>, pc: WorkerPc)
    requires Follow(Authentication, events) == Some(pc)
    ensures IsAuthPc(pc)
  {
    var tries := AuthenticationTrace(events, pc);
  }

  /**
   When the loop is left without an accepted match, in particular when a capture returned -1, no
   payload is released in the whole run.
   */
  lemma FailureReleasesNothing(events: seq<Event>, k: nat, pc: WorkerPc)
    requires Follow(Authentication, events) == Some(pc) && k < |events|
    requires Follow(Authentication, events[..k]).Some? && StageOf(Follow(Authentication, events[..k]).value) == Trying
    requires Follow(Authentication, events[..k + 1]).Some?
      && StageOf(Follow(Authentication, events[..k + 1]).value) == Ended
    ensures PayloadRelease !in Main(events)
  {
    hide Next, Follow, IsAuthPc, StageOf, Matches;
    FollowPrefix(Authentication, events, k);
    var now := events[..k + 1];
    assert now == events[..k] + [events[k]];
    NoMatchOnFailure(events[..k], events[k]);
    var tries := AuthenticationTrace(now, Follow(Authentication, now).value);
    EndedForGood(events, k + 1, pc);
    TimesOnly(MatchImageToTemplates, tries);
  }

  /** At no moment was the loop left without an accepted match. */
  ghost predicate NeverFailed(events: seq<Event>) {
    forall k | 0 <= k < |events| :: !FailsAt(events, k)
  }

  ghost predicate FailsAt(events: seq<Event>, k: nat)
    requires k < |events|
  {
    && Follow(Authentication, events[..k]).Some? && Follow(Authentication, events[..k + 1]).Some?
    && StageOf(Follow(Authentication, events[..k]).value) == Trying
    && StageOf(Follow(Authentication, events[..k + 1]).value) == Ended
  }

  lemma {:induction false} MainContains(events: seq<Event>, m: nat)
    requires m < |events| && IsMain(events[m])
    ensures events[m].command in Main(events)
  {
    if m < |events| - 1 {
      MainContains(events[..|events| - 1], m);
    }
  }

  /** A run that has released a payload had no capture that returned -1, and no other failure. */
  lemma ReleaseExcludesFailure(events: seq<Event>, pc: WorkerPc, m: nat)
    requires Follow(Authentication, events) == Some(pc) && m < |events|
    requires events[m].Sent? && events[m].command == PayloadRelease
    ensures NeverFailed(events)
  {
    hide Follow, StageOf, Main;
    MainContains(events, m);
    forall k | 0 <= k < |events|
      ensures !FailsAt(events, k)
    {
      if FailsAt(events, k) {
        FailureReleasesNothing(events, k, pc);
      }
    }
  }

  lemma NoMatchOnFailure(events: seq<Event>, e: Event)
    requires Follow(Authentication, events).Some? && StageOf(Follow(Authentication, events).value) == Trying
    requires Follow(Authentication, events + [e]).Some? && StageOf(Follow(Authentication, events + [e]).value) == Ended
    ensures Matches(events + [e]) == 0
  {
    hide Next, IsAuthPc, StageOf;
    FollowAppended(Authentication, events, e);
    var at := Follow(Authentication, events);
    var tries := AuthenticationTrace(events, at.value);
    StageStep(at, e, Follow(Authentication, events + [e]).value);
    assert (events + [e])[..|events|] == events;
  }

  lemma {:induction false} TimesOnly(command: Command, n: nat)
    ensures forall c | c in Times(command, n) :: c == command
  {
    if n > 0 {
      TimesOnly(command, n - 1);
    }
  }
}
