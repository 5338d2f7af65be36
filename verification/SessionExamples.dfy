/**
 Runs that exist: the situations that the conditions of the session theorems exclude do occur.
 */
module SessionExamples {
  import opened Protocol
  import opened Session
  import opened SessionSafety
  import opened SessionProgress
  import opened SessionRuns
  import opened SessionEnding
  import opened SessionReplies
  import opened SessionAlone
  import opened SessionAborts
  import opened SessionTwoAborts
  import opened SessionMoves
  import opened Commands
  import opened WorkerScripts
  import opened SessionTraces

  lemma AtTheBeginning()
    ensures Reaches(INITIAL, [], INITIAL) && Invariant(INITIAL)
  {
  }

  /** A session of this kind, its worker at the wait. */
  lemma Waiting(kind: Kind) returns (labels: seq<Label>, s: System)
    ensures Reaches(INITIAL, labels, s) && |s.threads| == 2 && s.threads[0] == Starter(kind, Returned)
    ensures At(s, 1, kind, WaitLock, 0) && SharedOf(s) == Shared(Mark(kind), false, None, None, 0, None)
  {
    hide Reaches;
    AtTheBeginning();
    labels, s := Starts(INITIAL, [], INITIAL, kind);
    labels, s := ToCaptureStart(INITIAL, labels, s, 1, kind);
    labels, s := ToWaitLock(INITIAL, labels, s, 1, kind, 0);
  }

  /**
   A cancelled worker that goes on: it answers the CANCEL in the guard and writes IDLE, a new
   session starts, and the next reading of the state word finds that session.
   */
  lemma Revived(kind: Kind) returns (labels: seq<Label>, s: System)
    ensures Reaches(INITIAL, labels, s) && Invariant(s)
    ensures SharedOf(s) == Shared(Scan, false, None, None, 1, None) && |s.threads| == 5
    ensures At(s, 1, kind, CheckFirst(ReadLoop), 1) && At(s, 4, Authentication, Begin, 0)
  {
    hide Reaches, Invariant;
    labels, s := Answered(kind);
    labels, s := Starts(INITIAL, labels, s, Authentication);
    labels, s := GoesOnCapturing(INITIAL, labels, s, 1, kind, 1);
    AtTheBeginning();
    ReachesInvariant(INITIAL, labels, s);
  }

  /** A worker that has answered its CANCEL in the guard, and written IDLE. */
  lemma Answered(kind: Kind) returns (labels: seq<Label>, s: System)
    ensures Reaches(INITIAL, labels, s) && |s.threads| == 3 && At(s, 1, kind, WaitUnlock, 1)
    ensures SharedOf(s) == Shared(Idle, false, Some(1), None, 1, None)
  {
    hide Reaches;
    labels, s := Waiting(kind);
    labels, s := Cancelled(INITIAL, labels, s);
    labels, s := AnswersInTheGuard(INITIAL, labels, s, 1, kind, WaitLock, 0);
  }

  /** Two live workers at once: the revived one and that of the new session. */
  lemma TwoLiveWorkers() returns (labels: seq<Label>, s: System)
    ensures Reaches(INITIAL, labels, s) && |s.threads| == 5 && Live(s.threads[1]) && Live(s.threads[4])
  {
    hide Reaches, Invariant;
    labels, s := Revived(Authentication);
  }

  lemma {:induction false} AbortsAtLeast(threads: seq<Thread>, i: nat)
    requires i < |threads|
    ensures Aborts(threads) >= AbortsOf(threads[i])
  {
    if i < |threads| - 1 {
      AbortsAtLeast(threads[..|threads| - 1], i);
    }
  }

  /** More CaptureAbort commands than CANCELs: the revived worker and that of the new session answer the same one. */
  lemma MoreAbortsThanCancels() returns (labels: seq<Label>, s: System)
    ensures Reaches(INITIAL, labels, s) && s.cancels == 2 && Aborts(s.threads) >= 3
  {
    hide Reaches, Invariant, Aborts;
    var first, m := Revived(Authentication);
    first, m := ToCaptureStart(INITIAL, first, m, 4, Authentication);
    first, m := Cancelled(INITIAL, first, m);
    assert Both(m, 1, 4);
    AtTheBeginning();
    ReachesInvariant(INITIAL, first, m);
    AbortsAtLeast(m.threads, 1);
    var second;
    second, s := BothAnswer(m, 1, 4);
    ReachesJoin(INITIAL, first, m, second, s);
    labels := first + second;
  }

  /** An enrolment that answered its cancel completes under the session that came after it. */
  lemma CancelledEnrolmentCompletes() returns (labels: seq<Label>, s: System)
    ensures Reaches(INITIAL, labels, s) && s.state == Scan && s.cancels == 1
    ensures At(s, 1, Enrolment, Password2, 1)
  {
    hide Reaches, Invariant;
    labels, s := Revived(Enrolment);
    labels, s := ReadsImage(INITIAL, labels, s, 1, Enrolment, 1);
    labels, s := Completes(INITIAL, labels, s, 1, 1);
  }

  /** Its EnrollFinish is among the commands that it has sent in this execution. */
  lemma CancelledEnrolmentFinishes() returns (states: seq<System>, labels: seq<Label>)
    ensures Execution(states, labels) && states[0] == INITIAL && |labels| < |states|
    ensures var s := states[|labels|]; s.state == Scan && At(s, 1, Enrolment, Password2, 1)
    ensures EnrollFinish in Main(TraceOf(states, labels, |labels|, 1))
  {
    hide Reaches, TraceOf, Execution;
    var s;
    labels, s := CancelledEnrolmentCompletes();
    states := ReachesExecution(INITIAL, labels, s);
    LengthOfExecution(states, labels);
    var a, j, n := EnrolmentInSession(states, labels, |labels|, 1);
    FinishInScript(a, j, n);
  }

  lemma LengthOfExecution(states: seq<System>, labels: seq<Label>)
    requires Execution(states, labels)
    ensures |labels| < |states|
  {
  }

  lemma FinishInScript(a: nat, j: nat, n: nat)
    requires ScriptFits(PhaseOf(Password2), a, j, n)
    ensures EnrollFinish in Script(a, j, n)
  {
    assert COMPLETION[..4][0] == EnrollFinish;
  }

  /** Two workers asleep: the revived one, whose image was no good, and that of the new session. */
  lemma TwoSleepers() returns (labels: seq<Label>, s: System)
    ensures Reaches(INITIAL, labels, s) && |s.threads| == 5
    ensures At(s, 1, Authentication, Asleep, 1) && At(s, 4, Authentication, Asleep, 0)
    ensures SharedOf(s) == Shared(Scan, false, None, None, 1, None)
  {
    hide Reaches, Invariant;
    labels, s := Revived(Authentication);
    labels, s := ReadsImage(INITIAL, labels, s, 1, Authentication, 1);
    labels, s := CapturesAgain(INITIAL, labels, s, 1, Authentication, 1);
    labels, s := ToWaitLock(INITIAL, labels, s, 1, Authentication, 1);
    labels, s := FallsAsleep(INITIAL, labels, s, 1, Authentication, 1);
    labels, s := ToCaptureStart(INITIAL, labels, s, 4, Authentication);
    labels, s := ToWaitLock(INITIAL, labels, s, 4, Authentication, 0);
    labels, s := FallsAsleep(INITIAL, labels, s, 4, Authentication, 0);
  }

  /** A cancel that is over, signal and polling included, and leaves a worker asleep. */
  lemma SleeperLeftBehind() returns (labels: seq<Label>, s: System)
    ensures Reaches(INITIAL, labels, s) && s.state == Idle && s.cancels == 2
    ensures At(s, 1, Authentication, Asleep, 1)
    ensures |s.threads| == 6 && s.threads[5] == Canceller(CancelReturned)
  {
    hide Reaches;
    labels, s := TwoSleepers();
    labels, s := Cancelled(INITIAL, labels, s);
    labels, s := Signals(INITIAL, labels, s, 5, 4, Authentication, 0);
    labels, s := AnswersInTheGuard(INITIAL, labels, s, 4, Authentication, Woken, 0);
    labels, s := CancelReturns(INITIAL, labels, s, 5);
  }

  /** A timeout has written CANCEL, and its worker sleeps on; a cancel then waits for the timeout thread. */
  lemma TimeoutHangs() returns (labels: seq<Label>, s: System)
    ensures Reaches(INITIAL, labels, s) && s.state == Cancel && |s.threads| == 4
    ensures s.threads[0] == Starter(Enrolment, Returned) && At(s, 1, Enrolment, Asleep, 0)
    ensures s.threads[2] == Timer(TimerSpin) && s.threads[3] == Canceller(Joining(2))
    ensures forall l: Label | l.Run? && Allowed(s, l) :: (l.i == 1 && l.input.bit) || (l.i == 2 && After(s, l) == s)
    ensures forall more, s' | Reaches(s, more, s') && Unaided(s, more) :: s'.state != Idle
  {
    hide Reaches, Invariant, Unaided;
    labels, s := EnrolmentAsleep();
    labels, s := TimesOut(INITIAL, labels, s, 2);
    labels, s := JoinsTimer(INITIAL, labels, s, 2);
    NobodySignals(s);
    AtTheBeginning();
    ReachesInvariant(INITIAL, labels, s);
    EndsAloneExactly(s);
    forall l: Label | l.Run? && Allowed(s, l)
      ensures (l.i == 1 && l.input.bit) || (l.i == 2 && After(s, l) == s)
    {
      OnlyPolling(s, l);
    }
  }

  lemma NobodySignals(s: System)
    requires |s.threads| == 4 && s.threads[0] == Starter(Enrolment, Returned) && At(s, 1, Enrolment, Asleep, 0)
    requires s.threads[2] == Timer(TimerSpin) && s.threads[3] == Canceller(Joining(2))
    ensures !EndsAlone(s) && NoneCommitted(s)
  {
  }

  lemma EnrolmentAsleep() returns (labels: seq<Label>, s: System)
    ensures Reaches(INITIAL, labels, s) && |s.threads| == 3
    ensures s.threads[0] == Starter(Enrolment, Returned) && At(s, 1, Enrolment, Asleep, 0)
      && s.threads[2] == Timer(TimerWaiting)
    ensures SharedOf(s) == Shared(WorkerState.Enroll, false, None, None, 0, Some(2))
  {
    hide Reaches;
    labels, s := EnrolmentCaptures();
    labels, s := ToWaitLock(INITIAL, labels, s, 1, Enrolment, 0);
    labels, s := FallsAsleep(INITIAL, labels, s, 1, Enrolment, 0);
  }

  lemma EnrolmentCaptures() returns (labels: seq<Label>, s: System)
    ensures Reaches(INITIAL, labels, s) && |s.threads| == 3
    ensures s.threads[0] == Starter(Enrolment, Returned) && At(s, 1, Enrolment, WorkerPc.CaptureStart, 0)
      && s.threads[2] == Timer(TimerWaiting)
    ensures SharedOf(s) == Shared(WorkerState.Enroll, false, None, None, 0, Some(2))
  {
    hide Reaches;
    AtTheBeginning();
    labels, s := StartsTimed(INITIAL, [], INITIAL);
    labels, s := ToCaptureStart(INITIAL, labels, s, 1, Enrolment);
  }

  /** Without a new call or a spurious return of the wait, only the timeout thread moves, and in a circle. */
  lemma OnlyPolling(s: System, l: Label)
    requires s.state == Cancel && |s.threads| == 4 && s.threads[0] == Starter(Enrolment, Returned)
      && At(s, 1, Enrolment, Asleep, 0)
    requires s.threads[2] == Timer(TimerSpin) && s.threads[3] == Canceller(Joining(2))
    requires l.Run? && Allowed(s, l)
    ensures (l.i == 1 && l.input.bit) || (l.i == 2 && After(s, l) == s)
  {
    if l.i == 2 {
      assert After(s, l).threads == s.threads;
    }
  }

  /** An enrolment on a full table, and a CANCEL that nobody can end: the worker waits for the lock that it keeps. */
  lemma HopelessCancel() returns (labels: seq<Label>, s: System)
    ensures Reaches(INITIAL, labels, s) && s.state == Cancel && At(s, 1, Authentication, NoticeLock(ToTop), 0)
    ensures |s.threads| == 4 && s.threads[2] == Starter(Enrolment, NoSpace)
    ensures forall more, s' | Reaches(s, more, s') :: s'.state == Cancel
  {
    hide Reaches, Invariant;
    labels, s := WorkerWaitsToReport();
    labels, s := FindsNoSpace(INITIAL, labels, s);
    labels, s := Cancelled(INITIAL, labels, s);
    assert s.threads[2] == Starter(Enrolment, NoSpace) && s.threads[3] == Canceller(LockSensor);
    NobodyCanEnd(s);
    AtTheBeginning();
    ReachesInvariant(INITIAL, labels, s);
    forall more, s' | Reaches(s, more, s')
      ensures s'.state == Cancel
    {
      HopelessRun(s, more, s');
    }
  }

  lemma NobodyCanEnd(s: System)
    requires |s.threads| == 4 && s.threads[0] == Starter(Authentication, Returned)
    requires At(s, 1, Authentication, NoticeLock(ToTop), 0)
    requires s.threads[2] == Starter(Enrolment, NoSpace) && s.threads[3] == Canceller(LockSensor)
    ensures !CanEnd(s) && NoneCommitted(s)
  {
    assert s.threads[2].spc.NoSpace?;
  }

  lemma AuthenticationCaptures() returns (labels: seq<Label>, s: System)
    ensures Reaches(INITIAL, labels, s) && |s.threads| == 2 && s.threads[0] == Starter(Authentication, Returned)
    ensures At(s, 1, Authentication, WorkerPc.CaptureStart, 0)
      && SharedOf(s) == Shared(Scan, false, None, None, 0, None)
  {
    hide Reaches;
    AtTheBeginning();
    labels, s := Starts(INITIAL, [], INITIAL, Authentication);
    labels, s := ToCaptureStart(INITIAL, labels, s, 1, Authentication);
  }

  /** Whether this CANCEL ends is up to the app: the worker matches while a full table keeps the device lock. */
  lemma RepliesDecide() returns (labels: seq<Label>, s: System)
    ensures Reaches(INITIAL, labels, s) && s.state == Cancel && At(s, 1, Authentication, Match, 0)
    ensures exists outside :: SomeRunEnds(s, outside)
    ensures exists outside :: !SomeRunEnds(s, outside)
  {
    hide Reaches, Invariant, Alone, Unaided;
    labels, s := AuthenticationCaptures();
    labels, s := MatchesAnyway(INITIAL, labels, s, 1, 0);
    labels, s := FindsNoSpace(INITIAL, labels, s);
    labels, s := Cancelled(INITIAL, labels, s);
    AtTheBeginning();
    ReachesInvariant(INITIAL, labels, s);
    MatchUnderFullTable(s);
    EndsSurelyExactly(s);
    AcceptedMatchEnds(s);
  }

  lemma MatchUnderFullTable(s: System)
    requires |s.threads| == 4 && s.threads[0] == Starter(Authentication, Returned)
    requires At(s, 1, Authentication, Match, 0)
    requires s.threads[2] == Starter(Enrolment, NoSpace) && s.threads[3] == Canceller(LockSensor)
    ensures !EndsSurely(s) && NoneCommitted(s)
  {
    assert s.threads[2].spc.NoSpace?;
  }

  lemma AcceptedMatchEnds(s: System)
    requires Invariant(s) && NoneCommitted(s) && s.state == Cancel && At(s, 1, Authentication, Match, 0)
    ensures exists outside :: SomeRunEnds(s, outside)
  {
    hide Invariant, NoneCommitted, Reaches, Alone, FullTable;
    var outside: Outside := (i, n) => Input(Accepted(true), false, 0);
    var l := Run(1, Input(Accepted(true), false, 0));
    var m := After(s, l);
    InvariantKept(s, l);
    CancelKept(s, l);
    ReleaseIsSure(m);
    ReachesOne(s, l);
    AloneOne(s, l, outside);
    var more, s' := IdleForEveryReply(m, 1, outside);
    ReachesJoin(s, [l], m, more, s');
    AloneJoin(s, [l], m, more, outside);
    assert SomeRunEnds(s, outside);
  }

  lemma ReleaseIsSure(s: System)
    requires |s.threads| > 1 && s.threads[1].Worker? && s.threads[1].pc == Release
    ensures Sure(s, s.threads[1])
  {
  }

  lemma WorkerWaitsToReport() returns (labels: seq<Label>, s: System)
    ensures Reaches(INITIAL, labels, s) && |s.threads| == 2 && s.threads[0] == Starter(Authentication, Returned)
    ensures At(s, 1, Authentication, NoticeLock(ToTop), 0) && SharedOf(s) == Shared(Scan, false, None, None, 0, None)
  {
    hide Reaches;
    labels, s := AuthenticationCaptures();
    labels, s := MatchesAnyway(INITIAL, labels, s, 1, 0);
    labels, s := RejectsMatch(INITIAL, labels, s, 1, 0);
  }

  /**
   A cancel that was aimed at a session that has ended: an enrolment reads IDLE, and only then is
   CANCEL written.  The enrolment will overwrite it.
   */
  lemma CancelCanBeLost() returns (labels: seq<Label>, s: System)
    ensures Reaches(INITIAL, labels, s)
    ensures s.state == Cancel && !NoneCommitted(s) && !CancelPrevails(s)
  {
    hide Reaches, Invariant, CancelPrevails;
    labels, s := AuthenticationCaptures();
    labels, s := Cancels(INITIAL, labels, s);
    labels, s := CaptureFails(INITIAL, labels, s, 1, 0);
    labels, s := Commits(INITIAL, labels, s, Enrolment);
    assert Committed(s.threads[3]);
    labels, s := Turn(INITIAL, labels, s, 2, Canceller(SetCancel), OK, Write(Cancel), Canceller(LockSensor));
    assert Committed(s.threads[3]);
    AtTheBeginning();
    ReachesInvariant(INITIAL, labels, s);
    CancelPrevailsExactly(s);
  }
}
