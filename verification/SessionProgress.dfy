/**
 What a CANCEL achieves: the worker spends a bounded budget of steps and commands before the
 state is IDLE, and a signalled worker does not stay blocked on the sensor's condition variable.
 */
module SessionProgress {
  import opened Protocol
  import opened Session
  import opened SessionSafety

  // ----- the budget of a worker that finds CANCEL in the state word

  /** Whether a write of IDLE still lies ahead of the worker. */
  predicate Live(t: Thread) {
    t.Worker? && LivePc(t.pc)
  }

  predicate LivePc(pc: WorkerPc) {
    match pc
    case Verdict | Over => false
    case NoticeLock(next) => next != ToDone && next != ToSecondNotice
    case NoticeUnlock(next) => next != ToDone && next != ToSecondNotice
    case _ => true
  }

  /** Own steps, at most, up to and including the next write of IDLE. */
  function StepsLeft(kind: Kind, pc: WorkerPc): nat {
    var top := if kind.Authentication? then 6 else 7;
    match pc
    case CheckIdle(_) | CloseIdle | GiveUpIdle | UninitIdle | FinalIdle => 1
    case CheckAbort(_) | Uninit | Password2 => 2
    case CheckSecond(_) | Token2 | Password1 => 3
    case CheckFirst(_) | Token1 | Bind2 => 4
    case WaitLock | WaitUnlock | Woken | ClearUnlock | Closing | Bind1 => 5
    case ArmUnlock | ClearSignal | Asleep | Release | Finish => 6
    case ArmLock | ClearLock | Doze => 7
    case UpdateCal | TestSignal => 8
    case Top => top
    case Begin2 => top + 1
    case Begin => top + 2
    case Match | EnrollNotice(_) => top + 3
    case AddImage => top + 4
    case CaptureStart => top + 5
    case ProcessData => top + 8
    case ReadData => top + 9
    case NoticeUnlock(next) => StepsAfterNotice(top, next) + 1
    case NoticeLock(next) => StepsAfterNotice(top, next) + 2
    case Verdict | Over => 0
  }

  function StepsAfterNotice(top: nat, next: Then): nat {
    match next
    case ToCapture => top + 5
    case ToTop => top
    case ToClose => 5
    case ToFinish => 6
    case ToSecondNotice | ToDone => 0
  }

  /** Commands, at most, before the next write of IDLE. */
  function CommandsLeft(kind: Kind, pc: WorkerPc): nat {
    var top := if kind.Authentication? then 3 else 5;
    match pc
    case CheckIdle(_) | CloseIdle | GiveUpIdle | UninitIdle | FinalIdle | Verdict | Over => 0
    case Uninit | Password2 => 1
    case UpdateCal | Token2 | Password1 => 2
    case Token1 | Closing | Bind2 => 3
    case Release | Bind1 => 4
    case Finish | EnrollNotice(_) => 5
    case Top => top
    case Begin2 => top + 1
    case Begin => top + 2
    case Match | AddImage => 6
    case CaptureStart => 7
    case ProcessData => 8
    case ReadData => 9
    case NoticeLock(next) => CommandsAfterNotice(top, next)
    case NoticeUnlock(next) => CommandsAfterNotice(top, next)
    case _ => 1
  }

  function CommandsAfterNotice(top: nat, next: Then): nat {
    match next
    case ToCapture => 7
    case ToTop => top
    case ToClose => 3
    case ToFinish => 5
    case ToSecondNotice | ToDone => 0
  }

  /** While the state is CANCEL, every step of a live worker spends its budget or writes IDLE. */
  lemma StepSpends(t: Thread, o: Observed, cancels: nat)
    requires Live(t) && o.value == Cancel && !ActionOf(t).Write?
    ensures var t' := Advance(t, o, cancels);
      && Live(t') && t'.kind == t.kind
      && t'.steps == t.steps + 1 && StepsLeft(t.kind, t'.pc) < StepsLeft(t.kind, t.pc)
      && t'.sent + CommandsLeft(t.kind, t'.pc) <= t.sent + CommandsLeft(t.kind, t.pc)
  {
    hide StepsLeft, CommandsLeft, LivePc, WorkerNext;
    StaysLive(t.kind, t.pc, o);
    PcSpendsSteps(t.kind, t.pc, o);
    PcSpendsCommands(t.kind, t.pc, o);
  }

  lemma StaysLive(kind: Kind, pc: WorkerPc, o: Observed)
    requires LivePc(pc) && o.value == Cancel && !WorkerAction(pc).Write?
    ensures LivePc(WorkerNext(kind, pc, o))
  {
  }

  lemma PcSpendsSteps(kind: Kind, pc: WorkerPc, o: Observed)
    requires LivePc(pc) && o.value == Cancel && !WorkerAction(pc).Write?
    ensures StepsLeft(kind, WorkerNext(kind, pc, o)) < StepsLeft(kind, pc)
  {
    hide StepsLeft, WorkerNext;
    if WorkerAction(pc).Send? {
      SendSpendsStep(kind, pc, o);
    } else {
      OtherSpendsStep(kind, pc, o);
    }
  }

  lemma SendSpendsStep(kind: Kind, pc: WorkerPc, o: Observed)
    requires WorkerAction(pc).Send?
    ensures StepsLeft(kind, WorkerNext(kind, pc, o)) < StepsLeft(kind, pc)
  {
  }

  lemma OtherSpendsStep(kind: Kind, pc: WorkerPc, o: Observed)
    requires LivePc(pc) && o.value == Cancel && !WorkerAction(pc).Write? && !WorkerAction(pc).Send?
    ensures StepsLeft(kind, WorkerNext(kind, pc, o)) < StepsLeft(kind, pc)
  {
  }

  lemma PcSpendsCommands(kind: Kind, pc: WorkerPc, o: Observed)
    requires LivePc(pc) && o.value == Cancel && !WorkerAction(pc).Write?
    ensures CommandsLeft(kind, WorkerNext(kind, pc, o)) + (if WorkerAction(pc).Send? then 1 else 0)
         <= CommandsLeft(kind, pc)
  {
  }

  lemma Budget(t: Thread)
    requires Live(t)
    ensures 1 <= StepsLeft(t.kind, t.pc) <= 16 && CommandsLeft(t.kind, t.pc) <= 9
    ensures ActionOf(t).Write? ==> ActionOf(t) == Write(Idle)
  {
  }

  /** What is left of a worker's budget never grows while the state stays CANCEL. */
  lemma {:induction false} CancelSpends(states: seq<System>, labels: seq<Label>, begin: nat, end: nat, i: nat)
    requires Execution(states, labels) && begin <= end < |states|
    requires forall k | begin <= k <= end :: states[k].state == Cancel
    requires i < |states[begin].threads| && Live(states[begin].threads[i])
    ensures i < |states[end].threads|
    ensures var before, now := states[begin].threads[i], states[end].threads[i];
      && Live(now) && now.kind == before.kind
      && now.steps + StepsLeft(now.kind, now.pc) <= before.steps + StepsLeft(before.kind, before.pc)
      && now.sent + CommandsLeft(now.kind, now.pc) <= before.sent + CommandsLeft(before.kind, before.pc)
    decreases end
  {
    if begin < end {
      CancelSpends(states, labels, begin, end - 1, i);
      var s, l := states[end - 1], labels[end - 1];
      var t := s.threads[i];
      Budget(t);
      if l.Run? && l.i == i {
        OwnStep(s, l);
        StepSpends(t, SeenBy(s, l.input), s.cancels);
      } else if l.Run? {
        OthersKept(s, l, i);
      }
    }
  }

  lemma OwnStep(s: System, l: Label)
    requires Allowed(s, l) && l.Run?
    ensures var t := s.threads[l.i];
      && l.i < |After(s, l).threads|
      && After(s, l).threads[l.i] == Advance(t, SeenBy(s, l.input), s.cancels)
      && (ActionOf(t).Write? ==> After(s, l).state == ActionOf(t).value)
  {
  }

  // ----- when a CANCEL prevails

  ghost predicate NoneCommitted(s: System) {
    forall i | 0 <= i < |s.threads| :: !Committed(s.threads[i])
  }

  lemma CancelKept(s: System, l: Label)
    requires Invariant(s) && Allowed(s, l) && s.state == Cancel && NoneCommitted(s)
    ensures After(s, l).state == Cancel || After(s, l).state == Idle
    ensures NoneCommitted(After(s, l))
  {
    if l.Run? {
      var t := s.threads[l.i];
      var o := SeenBy(s, l.input);
      MarksWritten(t, o, s.cancels);
      OwnStep(s, l);
      assert !Committed(t);
      forall j | 0 <= j < |After(s, l).threads|
        ensures !Committed(After(s, l).threads[j])
      {
        if j < |s.threads| && j != l.i {
          OthersKept(s, l, j);
        }
      }
    }
  }

  /** From here on the first state that is not CANCEL is IDLE, whatever happens. */
  ghost predicate CancelPrevails(s: System) {
    forall states: seq<System>, labels: seq<Label> |
      Execution(states, labels) && states[0] == s && (forall k | 0 <= k < |labels| :: states[k].state == Cancel) ::
      states[|labels|].state == Cancel || states[|labels|].state == Idle
  }

  lemma {:induction false} CancelKeptAlong(states: seq<System>, labels: seq<Label>, begin: nat, end: nat)
    requires Execution(states, labels) && begin <= end < |states|
    requires Invariant(states[begin]) && NoneCommitted(states[begin])
    requires forall k | begin <= k < end :: states[k].state == Cancel
    ensures Invariant(states[end]) && NoneCommitted(states[end])
    ensures begin < end ==> states[end].state == Cancel || states[end].state == Idle
  {
    hide Allowed, After, Invariant, NoneCommitted;
    if begin < end {
      CancelKeptAlong(states, labels, begin, end - 1);
      CancelKept(states[end - 1], labels[end - 1]);
      InvariantKept(states[end - 1], labels[end - 1]);
    }
  }

  /**
   A CANCEL that has just been written can be lost in exactly one way: a start that read IDLE
   before it writes its mark over it.
   */
  lemma CancelPrevailsExactly(s: System)
    requires Invariant(s) && s.state == Cancel
    ensures CancelPrevails(s) <==> NoneCommitted(s)
  {
    if NoneCommitted(s) {
      forall states: seq<System>, labels: seq<Label> |
        Execution(states, labels) && states[0] == s && (forall k | 0 <= k < |labels| :: states[k].state == Cancel)
        ensures states[|labels|].state == Cancel || states[|labels|].state == Idle
      {
        CancelKeptAlong(states, labels, 0, |labels|);
      }
    } else {
      var i :| 0 <= i < |s.threads| && Committed(s.threads[i]);
      var l := Run(i, Input(Rejected, false, 0));
      MarksWritten(s.threads[i], SeenBy(s, Input(Rejected, false, 0)), s.cancels);
      OwnStep(s, l);
      var states, labels := [s, After(s, l)], [l];
      assert Execution(states, labels);
      assert states[|labels|].state == Mark(s.threads[i].starts);
    }
  }

  /**
   Bounded cancellation: unless a start is about to overwrite it, once CANCEL stands every live
   worker sends at most nine more commands and takes fewer than sixteen more steps before IDLE
   is written, in every schedule and for every reply.
   */
  lemma BoundedCancellation(states: seq<System>, labels: seq<Label>, begin: nat, end: nat, i: nat)
    requires Execution(states, labels) && states[0] == INITIAL && begin <= end < |states|
    requires states[begin].state == Cancel && NoneCommitted(states[begin])
    requires i < |states[begin].threads| && Live(states[begin].threads[i])
    ensures
      || (exists j | begin < j <= end :: states[j].state == Idle)
      || (&& i < |states[end].threads|
          && Live(states[end].threads[i])
          && states[end].threads[i].sent <= states[begin].threads[i].sent + 9
          && states[end].threads[i].steps < states[begin].threads[i].steps + 16)
    decreases end
  {
    if exists j | begin < j <= end :: states[j].state == Idle {
      return;
    }
    InvariantAlong(states, labels, begin);
    StaysCancel(states, labels, begin, end);
    CancelSpends(states, labels, begin, end, i);
    Budget(states[begin].threads[i]);
    Budget(states[end].threads[i]);
  }

  lemma {:induction false} StaysCancel(states: seq<System>, labels: seq<Label>, begin: nat, end: nat)
    requires Execution(states, labels) && begin <= end < |states|
    requires Invariant(states[begin]) && NoneCommitted(states[begin]) && states[begin].state == Cancel
    requires forall j | begin < j <= end :: states[j].state != Idle
    ensures forall k | begin <= k <= end :: states[k].state == Cancel
    decreases end
  {
    if begin < end {
      StaysCancel(states, labels, begin, end - 1);
      CancelKeptAlong(states, labels, begin, end);
    }
  }

  /**
   An enrolment that finds no free slot asks again for the device lock that it holds: it never
   gets any further, and from then on nobody else gets the lock.
   */
  lemma {:induction false} NoSpaceNeverReturns(states: seq<System>, labels: seq<Label>, begin: nat, end: nat, i: nat)
    requires Execution(states, labels) && Invariant(states[0]) && begin <= end < |states|
    requires i < |states[begin].threads| && states[begin].threads[i] == Starter(Enrolment, NoSpace)
    ensures i < |states[end].threads| && states[end].threads[i] == Starter(Enrolment, NoSpace)
    ensures states[end].deviceOwner == Some(i)
    decreases end
  {
    InvariantAlong(states, labels, end);
    if begin < end {
      NoSpaceNeverReturns(states, labels, begin, end - 1, i);
      if labels[end - 1].Run? && labels[end - 1].i != i {
        OthersKept(states[end - 1], labels[end - 1], i);
      }
    }
    assert Holds(states[end].threads[i], Lock.Device);
  }
}
