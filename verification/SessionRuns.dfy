/**
 Runs of the session machine from any state, and how a lock gets free: every holder is enabled
 and gives its lock back within a bounded number of its own steps.
 */
module SessionRuns {
  import opened Protocol
  import opened Session
  import opened SessionSafety
  import opened SessionProgress

  /** These labels, one after the other, lead from s to s'. */
  ghost predicate Reaches(s: System, labels: seq<Label>, s': System)
    decreases |labels|
  {
    if labels == [] then s' == s
    else Allowed(s, labels[0]) && Reaches(After(s, labels[0]), labels[1..], s')
  }

  lemma ReachesOne(s: System, l: Label)
    requires Allowed(s, l)
    ensures Reaches(s, [l], After(s, l))
  {
    hide Allowed, After;
  }

  lemma {:induction false} ReachesJoin(s: System, a: seq<Label>, m: System, b: seq<Label>, s': System)
    requires Reaches(s, a, m) && Reaches(m, b, s')
    ensures Reaches(s, a + b, s')
    decreases |a|
  {
    hide Allowed, After;
    if a == [] {
      assert a + b == b;
    } else {
      ReachesJoin(After(s, a[0]), a[1..], m, b, s');
      assert (a + b)[1..] == a[1..] + b;
    }
  }

  lemma {:induction false} ReachesInvariant(s: System, labels: seq<Label>, s': System)
    requires Invariant(s) && Reaches(s, labels, s')
    ensures Invariant(s')
    decreases |labels|
  {
    hide Allowed, After, Invariant;
    if labels != [] {
      InvariantKept(s, labels[0]);
      ReachesInvariant(After(s, labels[0]), labels[1..], s');
    }
  }

  /** A run is an execution without its states. */
  lemma {:induction false} ReachesExecution(s: System, labels: seq<Label>, s': System) returns (states: seq<System>)
    requires Reaches(s, labels, s')
    ensures Execution(states, labels) && states[0] == s && states[|labels|] == s'
    decreases |labels|
  {
    hide Allowed, After;
    if labels == [] {
      states := [s];
    } else {
      var rest := ReachesExecution(After(s, labels[0]), labels[1..], s');
      states := [s] + rest;
      forall k | 0 <= k < |labels|
        ensures Allowed(states[k], labels[k]) && states[k + 1] == After(states[k], labels[k])
      {
        if k > 0 {
          assert labels[k] == labels[1..][k - 1] && states[k] == rest[k - 1] && states[k + 1] == rest[k];
        }
      }
    }
  }

  /** A run without new calls and without spurious returns of a wait. */
  ghost predicate Unaided(s: System, labels: seq<Label>)
    decreases |labels|
  {
    labels != [] ==>
      && Allowed(s, labels[0]) && labels[0].Run? && !IsAsleep(s.threads[labels[0].i])
      && Unaided(After(s, labels[0]), labels[1..])
  }

  lemma {:induction false} UnaidedJoin(s: System, a: seq<Label>, m: System, b: seq<Label>)
    requires Reaches(s, a, m) && Unaided(s, a) && Unaided(m, b)
    ensures Unaided(s, a + b)
    decreases |a|
  {
    hide Allowed, After, IsAsleep;
    if a == [] {
      assert a + b == b;
    } else {
      UnaidedJoin(After(s, a[0]), a[1..], m, b);
      assert (a + b)[1..] == a[1..] + b;
    }
  }

  lemma StateKept(s: System, l: Label)
    requires Allowed(s, l) && l.Run? && !ActionOf(s.threads[l.i]).Write?
    ensures After(s, l).state == s.state && After(s, l).cancels == s.cancels
  {
    hide Advance, ActionOf;
  }

  /**
   What each worker gets from outside at each of its own steps, replies of the app above all; for a
   start, as number 0, whether its vcs_init succeeds.
   */
  type Outside = (nat, nat) -> Input

  predicate Gets(t: Thread, l: Label, outside: Outside)
    requires l.Run?
  {
    && (t.Worker? ==> l.input == outside(l.i, t.steps))
    && (t.Starter? && t.spc.Init? ==> l.input.bit == outside(l.i, 0).bit)
  }

  /** A run without new calls and without spurious returns, in which these are the inputs. */
  ghost predicate Alone(s: System, labels: seq<Label>, outside: Outside)
    decreases |labels|
  {
    labels != [] ==>
      && Allowed(s, labels[0]) && labels[0].Run? && !IsAsleep(s.threads[labels[0].i])
      && Gets(s.threads[labels[0].i], labels[0], outside)
      && Alone(After(s, labels[0]), labels[1..], outside)
  }

  lemma {:induction false} AloneIsUnaided(s: System, labels: seq<Label>, outside: Outside)
    requires Alone(s, labels, outside)
    ensures Unaided(s, labels)
    decreases |labels|
  {
    hide Allowed, After, IsAsleep;
    if labels != [] {
      AloneIsUnaided(After(s, labels[0]), labels[1..], outside);
    }
  }

  lemma {:induction false} AloneJoin(s: System, a: seq<Label>, m: System, b: seq<Label>, outside: Outside)
    requires Reaches(s, a, m) && Alone(s, a, outside) && Alone(m, b, outside)
    ensures Alone(s, a + b, outside)
    decreases |a|
  {
    hide Allowed, After, IsAsleep;
    if a == [] {
      assert a + b == b;
    } else {
      AloneJoin(After(s, a[0]), a[1..], m, b, outside);
      assert (a + b)[1..] == a[1..] + b;
    }
  }

  lemma AloneOne(s: System, l: Label, outside: Outside)
    requires Allowed(s, l) && l.Run? && !IsAsleep(s.threads[l.i])
    requires Gets(s.threads[l.i], l, outside)
    ensures Alone(s, [l], outside)
  {
    hide Allowed, After, IsAsleep;
  }

  // ----- lock holders

  /** Own steps, at most, until the thread gives the lock up, or writes IDLE before it does. */
  function ReleaseIn(t: Thread, lock: Lock): nat {
    match t
    case Worker(_, pc, _, _, _, _) =>
      (match pc
       case ArmUnlock | Doze | WaitUnlock | ClearUnlock | CheckIdle(_) | NoticeUnlock(_) => 1
       case TestSignal | ClearSignal | CheckAbort(_) => 2
       case CheckSecond(_) => 3
       case CheckFirst(_) => 4
       case _ => 0)
    case Starter(_, pc) =>
      (match pc
       case LookForSlot => 3
       case Reading(n) => if n < 4 then 6 - n else 2
       case Init => 4
       case Spawn => 3
       case SpawnTimer => 2
       case _ => 1)
    case Canceller(pc) => if pc.SignalSensor? then 2 else 1
    case Timer(_) => 1
    case Handler(pc) =>
      (match pc
       case HandlerFirst => 5
       case HandlerSecond => 4
       case HandlerSet => 3
       case HandlerSignal => 2
       case _ => 1)
  }

  /** A start that keeps the device lock, or gives it up only after overwriting a CANCEL. */
  predicate Clings(t: Thread) {
    t.Starter? && (t.spc.NoSpace? || t.spc.SetMark?)
  }

  /** An enrolment that found no free slot sits on the device lock. */
  ghost predicate FullTable(s: System) {
    exists j | 0 <= j < |s.threads| :: s.threads[j].Starter? && s.threads[j].spc.NoSpace?
  }

  lemma NoSpaceFrom(t: Thread, o: Observed, cancels: nat)
    ensures var t' := Advance(t, o, cancels);
      t'.Starter? && t'.spc.NoSpace? ==> t.Starter? && (t.spc.NoSpace? || (t.spc.LookForSlot? && !o.bit))
    ensures ActionOf(t).Create? ==> !ActionOf(t).child.Starter?
  {
  }

  /** The table is found full only by a start that looks for a slot. */
  lemma FullTableBack(s: System, l: Label)
    requires Allowed(s, l) && l.Run? && FullTable(After(s, l))
    requires s.threads[l.i].Starter? && s.threads[l.i].spc.LookForSlot? ==> l.input.bit
    ensures FullTable(s)
  {
    hide Advance, ActionOf;
    var s' := After(s, l);
    var j :| 0 <= j < |s'.threads| && s'.threads[j].Starter? && s'.threads[j].spc.NoSpace?;
    NoSpaceFrom(s.threads[l.i], SeenBy(s, l.input), s.cancels);
    assert j < |s.threads| && s.threads[j].Starter? && s.threads[j].spc.NoSpace?;
  }

  /** The action of a thread that can always be taken, if need be with the right waiter. */
  predicate NeverBlocks(action: Action) {
    !action.Acquire? && !action.Sleeping? && !action.Join? && !action.Halt?
  }

  /**
   While CANCEL stands every holder of a lock can move, and each of its moves brings it nearer to
   giving the lock up or to writing IDLE.  The exceptions are a start that is about to overwrite
   the CANCEL, and one that finds no free slot.
   */
  lemma HolderReleases(t: Thread, lock: Lock, o: Observed, cancels: nat)
    requires Holds(t, lock) && o.value == Cancel && !Clings(t)
    requires t.Starter? && t.spc.LookForSlot? ==> o.bit
    ensures NeverBlocks(ActionOf(t)) && 1 <= ReleaseIn(t, lock) <= 6
    ensures
      || ActionOf(t) == Unlock(lock) || (ActionOf(t) == Wait && lock == Sensor) || ActionOf(t) == Write(Idle)
      || (&& Holds(Advance(t, o, cancels), lock) && ReleaseIn(Advance(t, o, cancels), lock) < ReleaseIn(t, lock)
          && !Clings(Advance(t, o, cancels)) && !ActionOf(t).Write?)
  {
  }

  /** Thread k is as it was, except that a signal may have woken it. */
  ghost predicate Undisturbed(s: System, s': System, k: nat) {
    && k < |s.threads| == |s'.threads|
    && (s'.threads[k] == s.threads[k]
        || (IsAsleep(s.threads[k]) && s'.threads[k] == s.threads[k].(pc := Woken)))
  }

  /** One step of the holder of a lock, in a state with a standing CANCEL. */
  lemma HolderStep(s: System, lock: Lock, outside: Outside) returns (l: Label)
    requires Invariant(s) && s.state == Cancel && Owner(s, lock).Some?
    requires !Clings(s.threads[Owner(s, lock).value])
    ensures Allowed(s, l) && l.Run? && l.i == Owner(s, lock).value && !IsAsleep(s.threads[l.i])
    ensures s.threads[l.i].Starter? && s.threads[l.i].spc.LookForSlot? ==> l.input.bit
    ensures Gets(s.threads[l.i], l, outside)
    ensures FullTable(After(s, l)) ==> FullTable(s)
    ensures var s', t := After(s, l), s.threads[l.i];
      && Invariant(s') && s'.cancels == s.cancels && |s'.threads| == |s.threads|
      && (NoneCommitted(s) ==> NoneCommitted(s'))
      && s'.threads[l.i] == Advance(t, SeenBy(s, l.input), s.cancels)
      && (forall k | 0 <= k < |s.threads| && k != l.i :: Undisturbed(s, s', k))
      && (|| s'.state == Idle
          || (s'.state == Cancel && Owner(s', lock) == None)
          || (s'.state == Cancel && Owner(s', lock) == Owner(s, lock)
              && ReleaseIn(s'.threads[l.i], lock) < ReleaseIn(t, lock) && !Clings(s'.threads[l.i])))
  {
    hide Advance, ActionOf, ReleaseIn, Clings, NoneCommitted, FullTable;
    var o := Owner(s, lock).value;
    var t := s.threads[o];
    var waiter := 0;
    if j :| 0 <= j < |s.threads| && IsAsleep(s.threads[j]) {
      waiter := j;
    }
    l := Run(o, if t.Worker? then outside(o, t.steps)
                else Input(Rejected, t.Starter? && (t.spc.LookForSlot? || (t.spc.Init? && outside(o, 0).bit)), waiter));
    assert Holds(t, lock);
    HolderNotifies(t, lock);
    HolderReleases(t, lock, SeenBy(s, l.input), s.cancels);
    HolderCreatesNothing(t, l.input.bit, lock);
    SleepersHoldNothing(t, lock);
    OwnStep(s, l);
    InvariantKept(s, l);
    HolderEffect(s, l, lock);
    if FullTable(After(s, l)) {
      FullTableBack(s, l);
    }
    if NoneCommitted(s) {
      CancelKept(s, l);
    }
    forall k | 0 <= k < |s.threads| && k != o
      ensures Undisturbed(s, After(s, l), k)
    {
      OthersKept(s, l, k);
    }
  }

  lemma HolderCreatesNothing(t: Thread, bit: bool, lock: Lock)
    requires t.Worker? || (bit ==> t.Starter? && (t.spc.LookForSlot? || t.spc.Init?))
    ensures ActionOf(t).Create? ==> !bit
  {
  }

  lemma HolderNotifies(t: Thread, lock: Lock)
    ensures ActionOf(t).Notify? ==> !t.Worker?
  {
  }

  lemma SleepersHoldNothing(t: Thread, lock: Lock)
    requires Holds(t, lock)
    ensures !IsAsleep(t)
  {
  }

  lemma HolderEffect(s: System, l: Label, lock: Lock)
    requires Invariant(s) && Allowed(s, l) && l.Run? && Owner(s, lock) == Some(l.i)
    requires ActionOf(s.threads[l.i]).Create? ==> !l.input.bit
    ensures var action, s' := ActionOf(s.threads[l.i]), After(s, l);
      && |s'.threads| == |s.threads|
      && s'.state == (if action.Write? then action.value else s.state)
      && (action != Write(Cancel) ==> s'.cancels == s.cancels)
      && (if action == Unlock(lock) || (action == Wait && lock == Sensor) then Owner(s', lock) == None
          else Owner(s', lock) == Owner(s, lock))
  {
    hide Advance, Holds, ActionOf;
  }

  /** A run of the holder, whatever it gets from outside, frees the lock within six steps, unless IDLE is written on the way. */
  lemma {:induction false} FreeLock(s: System, lock: Lock, outside: Outside) returns (labels: seq<Label>, s': System)
    requires Invariant(s) && s.state == Cancel
    requires Owner(s, lock).Some? ==> !Clings(s.threads[Owner(s, lock).value])
    ensures Reaches(s, labels, s') && Alone(s, labels, outside) && Invariant(s') && s'.cancels == s.cancels
    ensures FullTable(s') ==> FullTable(s)
    ensures NoneCommitted(s) ==> NoneCommitted(s')
    ensures |labels| <= if Owner(s, lock).Some? then ReleaseIn(s.threads[Owner(s, lock).value], lock) else 0
    ensures s'.state == Idle || (s'.state == Cancel && Owner(s', lock) == None)
    ensures forall k | 0 <= k < |s.threads| && Owner(s, lock) != Some(k) :: Undisturbed(s, s', k)
    decreases if Owner(s, lock).Some? then ReleaseIn(s.threads[Owner(s, lock).value], lock) else 0
  {
    hide Invariant, Allowed, After, ReleaseIn, Clings, Advance, NoneCommitted, FullTable;
    if Owner(s, lock) == None {
      labels, s' := [], s;
    } else {
      OwnerIsThread(s, lock);
      HolderReleases(s.threads[Owner(s, lock).value], lock, SeenBy(s, Input(Rejected, true, 0)), 0);
      var l := HolderStep(s, lock, outside);
      var m := After(s, l);
      ReachesOne(s, l);
      AloneOne(s, l, outside);
      if m.state == Idle || Owner(m, lock) == None {
        labels, s' := [l], m;
      } else {
        labels, s' := FreeLock(m, lock, outside);
        forall k | 0 <= k < |s.threads| && Owner(s, lock) != Some(k)
          ensures Undisturbed(s, s', k)
        {
          assert Undisturbed(s, m, k) && Undisturbed(m, s', k);
        }
        ReachesJoin(s, [l], m, labels, s');
        AloneJoin(s, [l], m, labels, outside);
        labels := [l] + labels;
      }
    }
  }

  lemma OwnerIsThread(s: System, lock: Lock)
    requires Invariant(s) && Owner(s, lock).Some?
    ensures Owner(s, lock).value < |s.threads| && Holds(s.threads[Owner(s, lock).value], lock)
  {
  }
}
