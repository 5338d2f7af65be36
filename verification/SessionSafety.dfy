/**
 What holds in every reachable state of the session: mutual exclusion, the rule that the two
 kinds of session never overwrite each other, and the accounting of CaptureAbort commands.
 */
module SessionSafety {
  import opened Protocol
  import opened Session

  /** Whether a thread at this point holds the lock. */
  predicate Holds(t: Thread, lock: Lock) {
    match t
    case Worker(_, pc, _, _, _, _) =>
      if lock.Sensor? then
        match pc
        case ArmUnlock | TestSignal | Doze | WaitUnlock | ClearSignal | ClearUnlock => true
        case CheckFirst(site) => site.Guard?
        case CheckSecond(site) => site.Guard?
        case CheckAbort(site) => site.Guard?
        case CheckIdle(site) => site.Guard?
        case _ => false
      else pc.NoticeUnlock?
    case Starter(_, pc) => lock.Device? && !pc.LockDevice? && !pc.Returned?
    case Canceller(pc) =>
      if lock.Sensor? then pc.SignalSensor? || pc.UnlockSensor? else pc.CancelNoticeUnlock?
    case Timer(pc) => lock.Device? && pc.TimerNoticeUnlock?
    case Handler(pc) => lock.Sensor? && !pc.HandlerHandshake? && !pc.HandlerDrop? && !pc.HandlerLock? && !pc.HandlerOver?
  }

  /** A start that has read IDLE for the last time and will write its mark next. */
  predicate Committed(t: Thread) {
    t.Starter? && t.spc.SetMark?
  }

  ghost predicate LockOwned(s: System, lock: Lock) {
    && (Owner(s, lock).Some? ==> Owner(s, lock).value < |s.threads|)
    && forall i | 0 <= i < |s.threads| :: Holds(s.threads[i], lock) <==> Owner(s, lock) == Some(i)
  }

  ghost predicate CommittedSafe(s: System) {
    forall i | 0 <= i < |s.threads| :: Committed(s.threads[i]) ==> s.state == Idle || s.state == Cancel
  }

  /** Between two CANCEL writes a worker sends at most one CaptureAbort. */
  predicate AbortsAccounted(t: Thread, state: WorkerState, cancels: nat) {
    t.Worker? ==>
      var answering := if t.pc.CheckAbort? || t.pc.CheckIdle? then 1 else 0;
      && t.aborts + (if t.pc.CheckAbort? then 1 else 0) <= t.seen + answering <= cancels
      && (state == Cancel ==> t.seen < cancels)
  }

  ghost predicate Invariant(s: System) {
    && LockOwned(s, Sensor)
    && LockOwned(s, Device)
    && CommittedSafe(s)
    && (s.state == Cancel ==> s.cancels > 0)
    && forall i | 0 <= i < |s.threads| :: AbortsAccounted(s.threads[i], s.state, s.cancels)
  }

  // ----- one thread's step and the locks

  /** A step that acquires or gives up a lock does so for the thread, and no other step does. */
  lemma LockDiscipline(t: Thread, o: Observed, cancels: nat, lock: Lock)
    ensures var t' := Advance(t, o, cancels);
      match ActionOf(t)
      case Acquire(l) => if l == lock then Holds(t', lock) else Holds(t', lock) == Holds(t, lock)
      case Unlock(l) => if l == lock then Holds(t, lock) && !Holds(t', lock) else Holds(t', lock) == Holds(t, lock)
      case Wait => if lock == Sensor then Holds(t, lock) && !Holds(t', lock) else Holds(t', lock) == Holds(t, lock)
      case _ => Holds(t', lock) == Holds(t, lock)
  {
  }

  lemma NewThreadsHoldNothing(t: Thread, lock: Lock)
    ensures ActionOf(t).Create? ==> !Holds(ActionOf(t).child, lock)
    ensures IsCall(t) ==> !Holds(t, lock)
    ensures IsAsleep(t) ==> !Holds(t, lock) && !Holds(t.(pc := Woken), lock)
  {
  }

  lemma OwnerAfter(s: System, i: nat, action: Action, input: Input, lock: Lock)
    requires i < |s.threads|
    ensures Owner(Effect(s, i, action, input), lock) ==
      match action
      case Acquire(l) => if l == lock then Some(i) else Owner(s, lock)
      case Unlock(l) => if l == lock then None else Owner(s, lock)
      case Wait => if lock == Sensor then None else Owner(s, lock)
      case _ => Owner(s, lock)
  {
  }

  lemma LocksKept(s: System, l: Label, lock: Lock)
    requires LockOwned(s, lock) && Allowed(s, l)
    ensures LockOwned(After(s, l), lock)
  {
    hide Holds, ActionOf, Advance, IsCall;
    match l
    case Arrive(t) =>
      NewThreadsHoldNothing(t, lock);
    case Run(i, input) =>
      var t, s' := s.threads[i], After(s, l);
      assert Owner(s', lock) == Owner(Effect(s, i, ActionOf(t), input), lock);
      OwnerAfter(s, i, ActionOf(t), input, lock);
      LockDiscipline(t, SeenBy(s, input), s.cancels, lock);
      NewThreadsHoldNothing(t, lock);
      forall j | 0 <= j < |s'.threads|
        ensures Holds(s'.threads[j], lock) <==> Owner(s', lock) == Some(j)
      {
        if j != i && j < |s.threads| {
          OthersKept(s, l, j);
          NewThreadsHoldNothing(s.threads[j], lock);
          assert Holds(s.threads[j], lock) <==> Owner(s, lock) == Some(j);
        }
      }
  }

  /** A step changes no other thread, except that a signal wakes a sleeper. */
  lemma OthersKept(s: System, l: Label, j: nat)
    requires Allowed(s, l) && l.Run? && j < |s.threads| && j != l.i
    ensures j < |After(s, l).threads|
    ensures After(s, l).threads[j] == s.threads[j]
      || (ActionOf(s.threads[l.i]).Notify? && l.input.waiter == j && IsAsleep(s.threads[j])
          && After(s, l).threads[j] == s.threads[j].(pc := Woken))
  {
  }

  /** Only a committed start writes a session mark, and committing means having read IDLE. */
  lemma MarksWritten(t: Thread, o: Observed, cancels: nat)
    ensures ActionOf(t).Write? && (ActionOf(t).value == Scan || ActionOf(t).value == Enroll) ==>
              Committed(t) && ActionOf(t).value == Mark(t.starts)
    ensures Committed(t) ==> ActionOf(t) == Write(Mark(t.starts)) && Holds(t, Device)
    ensures Committed(Advance(t, o, cancels)) ==> o.value == Idle && Holds(t, Device)
    ensures Committed(Advance(t, o, cancels)) ==> ActionOf(t) == Read
  {
  }

  lemma CommittedKept(s: System, l: Label)
    requires Invariant(s) && Allowed(s, l)
    ensures CommittedSafe(After(s, l))
  {
    if l.Run? {
      var t := s.threads[l.i];
      MarksWritten(t, SeenBy(s, l.input), s.cancels);
      forall j | 0 <= j < |After(s, l).threads| && Committed(After(s, l).threads[j])
        ensures After(s, l).state == Idle || After(s, l).state == Cancel
      {
        if j != l.i && j < |s.threads| {
          assert Committed(s.threads[j]);
          MarksWritten(s.threads[j], SeenBy(s, l.input), s.cancels);
        }
      }
    }
  }

  /** The worker's own step: it answers a CANCEL it has just read, and then writes IDLE. */
  lemma AbortsOwnStep(t: Thread, o: Observed, cancels: nat)
    requires AbortsAccounted(t, o.value, cancels)
    ensures t.Worker? == Advance(t, o, cancels).Worker?
    ensures var state' := if ActionOf(t).Write? then ActionOf(t).value else o.value;
      t.Worker? ==> AbortsAccounted(Advance(t, o, cancels), state', cancels)
  {
  }

  /** Somebody else's step can only add CANCEL writes, and CANCEL appears only by such a write. */
  lemma StateAfter(s: System, l: Label)
    requires Allowed(s, l)
    ensures After(s, l).cancels >= s.cancels
    ensures After(s, l).state == Cancel ==> s.state == Cancel || After(s, l).cancels == s.cancels + 1
    ensures l.Run? && s.threads[l.i].Worker? ==>
      var action := ActionOf(s.threads[l.i]);
      After(s, l).cancels == s.cancels && After(s, l).state == (if action.Write? then action.value else s.state)
  {
  }

  lemma AbortsKept(s: System, l: Label)
    requires Invariant(s) && Allowed(s, l)
    ensures var s' := After(s, l);
      && (s'.state == Cancel ==> s'.cancels > 0)
      && forall j | 0 <= j < |s'.threads| :: AbortsAccounted(s'.threads[j], s'.state, s'.cancels)
  {
    hide Advance;
    var s' := After(s, l);
    StateAfter(s, l);
    forall j | 0 <= j < |s'.threads|
      ensures AbortsAccounted(s'.threads[j], s'.state, s'.cancels)
    {
      if j < |s.threads| {
        assert AbortsAccounted(s.threads[j], s.state, s.cancels);
        if l.Run? && j == l.i {
          AbortsOwnStep(s.threads[j], SeenBy(s, l.input), s.cancels);
        } else if l.Run? {
          OthersKept(s, l, j);
        }
      }
    }
  }

  lemma InvariantKept(s: System, l: Label)
    requires Invariant(s) && Allowed(s, l)
    ensures Invariant(After(s, l))
  {
    LocksKept(s, l, Sensor);
    LocksKept(s, l, Device);
    CommittedKept(s, l);
    AbortsKept(s, l);
  }

  lemma {:induction false} InvariantAlong(states: seq<System>, labels: seq<Label>, k: nat)
    requires Execution(states, labels) && Invariant(states[0]) && k < |states|
    ensures Invariant(states[k])
  {
    if k > 0 {
      InvariantAlong(states, labels, k - 1);
      InvariantKept(states[k - 1], labels[k - 1]);
    }
  }

  // ----- the theorems

  /**
   In every interleaving, stale cancels included, no write replaces ENROLL by SCAN or SCAN by
   ENROLL, nor a mark by itself: a mark is only ever written over IDLE or over CANCEL.
   */
  lemma KindsNeverOverwrite(states: seq<System>, labels: seq<Label>, k: nat)
    requires Execution(states, labels) && states[0] == INITIAL && k < |labels|
    ensures var before, now := states[k].state, states[k + 1].state;
      && (before == Enroll ==> now != Scan)
      && (before == Scan ==> now != Enroll)
    ensures labels[k].Run? && (ActionOf(states[k].threads[labels[k].i]) == Write(Scan)
              || ActionOf(states[k].threads[labels[k].i]) == Write(Enroll)) ==>
      states[k].state == Idle || states[k].state == Cancel
  {
    InvariantAlong(states, labels, k);
    var l := labels[k];
    if l.Run? {
      var s := states[k];
      MarksWritten(s.threads[l.i], SeenBy(s, l.input), s.cancels);
    }
  }

  /** Two threads never hold the same lock. */
  lemma MutualExclusion(states: seq<System>, labels: seq<Label>, k: nat, i: nat, j: nat, lock: Lock)
    requires Execution(states, labels) && states[0] == INITIAL && k < |states|
    requires i < |states[k].threads| && j < |states[k].threads|
    requires Holds(states[k].threads[i], lock) && Holds(states[k].threads[j], lock)
    ensures i == j
  {
    InvariantAlong(states, labels, k);
    assert LockOwned(states[k], lock);
  }

  /** No worker ever sends more CaptureAbort commands than there were CANCEL writes. */
  lemma AbortsBounded(states: seq<System>, labels: seq<Label>, k: nat, i: nat)
    requires Execution(states, labels) && states[0] == INITIAL && k < |states|
    requires i < |states[k].threads| && states[k].threads[i].Worker?
    ensures states[k].threads[i].aborts <= states[k].cancels
  {
    InvariantAlong(states, labels, k);
    assert AbortsAccounted(states[k].threads[i], states[k].state, states[k].cancels);
  }
}
