/**
 The condition variable: a worker that tests its guard under the sensor's lock cannot miss the
 signal of a cancel or of the data-ready handler, and nothing but such a signal wakes it.
 */
module SessionWakeUp {
  import opened Protocol
  import opened Session
  import opened SessionSafety
  import opened SessionProgress

  ghost function Sleepers(s: System): set<nat> {
    set i | 0 <= i < |s.threads| && IsAsleep(s.threads[i])
  }

  /** Why a worker has no business sleeping: a cancel stands, or the data-ready flag is up. */
  datatype Cause = CancelStands | SignalRaised

  predicate Stands(cause: Cause, s: System) {
    if cause.CancelStands? then s.state == Cancel else s.signal
  }

  /** A worker that will go to sleep whatever the shared state says by now. */
  predicate Dozing(cause: Cause, t: Thread) {
    t.Worker? && (t.pc == Doze || (cause.CancelStands? && t.pc == TestSignal))
  }

  ghost predicate NobodyDozing(cause: Cause, s: System) {
    forall i | 0 <= i < |s.threads| :: !Dozing(cause, s.threads[i])
  }

  /** Guard and wait are under the lock that every signal needs, so no worker is between them. */
  lemma SignalFindsNobodyDozing(s: System, i: nat, cause: Cause)
    requires Invariant(s) && i < |s.threads| && ActionOf(s.threads[i]).Notify?
    ensures NobodyDozing(cause, s)
  {
    assert Holds(s.threads[i], Sensor);
    forall j | 0 <= j < |s.threads|
      ensures !Dozing(cause, s.threads[j])
    {
      if j != i {
        assert !Holds(s.threads[j], Sensor);
      }
    }
  }

  lemma AdvanceSleep(t: Thread, o: Observed, cancels: nat, cause: Cause)
    ensures IsAsleep(Advance(t, o, cancels)) ==> t.Worker? && t.pc == Doze
    ensures Dozing(cause, Advance(t, o, cancels)) && !Dozing(cause, t) ==>
              if cause.CancelStands? then o.value != Cancel else !o.signal
  {
  }

  lemma NewcomersAreAwake(t: Thread, cause: Cause)
    ensures ActionOf(t).Create? ==> !Dozing(cause, ActionOf(t).child) && !IsAsleep(ActionOf(t).child)
    ensures IsCall(t) ==> !Dozing(cause, t) && !IsAsleep(t)
  {
  }

  lemma ThreadsAfter(s: System, l: Label, j: nat)
    requires Allowed(s, l) && j < |After(s, l).threads|
    ensures j >= |s.threads| ==>
      match l
      case Arrive(t) => After(s, l).threads[j] == t
      case Run(i, _) => ActionOf(s.threads[i]).Create? && After(s, l).threads[j] == ActionOf(s.threads[i]).child
  {
  }

  /** While the cause stands, nobody starts to doze and nobody falls asleep. */
  lemma NobodyFallsAsleep(s: System, l: Label, cause: Cause)
    requires Allowed(s, l) && Stands(cause, s) && NobodyDozing(cause, s)
    ensures NobodyDozing(cause, After(s, l))
    ensures Sleepers(After(s, l)) <= Sleepers(s)
  {
    hide Advance, ActionOf, IsCall, Effect;
    var s' := After(s, l);
    forall j | 0 <= j < |s'.threads|
      ensures !Dozing(cause, s'.threads[j])
      ensures IsAsleep(s'.threads[j]) ==> j < |s.threads| && IsAsleep(s.threads[j])
    {
      if j >= |s.threads| {
        ThreadsAfter(s, l, j);
        NewcomersAreAwake(if l.Arrive? then l.caller else s.threads[l.i], cause);
      } else if l.Run? && l.i == j {
        OwnStep(s, l);
        AdvanceSleep(s.threads[j], SeenBy(s, l.input), s.cancels, cause);
        assert !Dozing(cause, s.threads[j]);
      } else if l.Run? {
        OthersKept(s, l, j);
        assert !Dozing(cause, s.threads[j]);
      }
    }
  }

  /** The signal wakes the waiter it picks and puts nobody to sleep. */
  lemma SignalWakes(s: System, l: Label)
    requires Allowed(s, l) && l.Run? && ActionOf(s.threads[l.i]).Notify?
    ensures Sleepers(After(s, l)) == Sleepers(s) - {l.input.waiter}
    ensures Sleepers(s) != {} ==> l.input.waiter in Sleepers(s)
  {
    assert !s.threads[l.i].Worker?;
  }

  /** After a signal nobody sleeps if and only if at most one worker did. */
  lemma SignalLeavesNone(s: System, l: Label)
    requires Allowed(s, l) && l.Run? && ActionOf(s.threads[l.i]).Notify?
    ensures Sleepers(After(s, l)) == {} <==> |Sleepers(s)| <= 1
  {
    hide Sleepers, Allowed, After, ActionOf;
    SignalWakes(s, l);
    if Sleepers(s) != {} {
      assert Sleepers(s) == Sleepers(After(s, l)) + {l.input.waiter};
      assert |Sleepers(s)| == |Sleepers(After(s, l))| + 1;
    }
  }

  lemma {:induction false} SleepersShrink(states: seq<System>, labels: seq<Label>, first: nat, last: nat, cause: Cause)
    requires Execution(states, labels) && first <= last < |states|
    requires NobodyDozing(cause, states[first])
    requires forall k | first <= k < last :: Stands(cause, states[k])
    ensures NobodyDozing(cause, states[last]) && Sleepers(states[last]) <= Sleepers(states[first])
    decreases last
  {
    hide Allowed, After, Sleepers, NobodyDozing;
    if first < last {
      SleepersShrink(states, labels, first, last - 1, cause);
      NobodyFallsAsleep(states[last - 1], labels[last - 1], cause);
    }
  }

  /**
   No lost wake-up: after a signal, as long as the cancel stands or the flag stays up, the
   sleepers are among those of the time of the signal, less the one it woke.
   */
  lemma NoLostWakeUp(states: seq<System>, labels: seq<Label>, k: nat, m: nat, cause: Cause)
    requires Execution(states, labels) && states[0] == INITIAL && k < m < |states|
    requires labels[k].Run? && ActionOf(states[k].threads[labels[k].i]).Notify?
    requires forall j | k < j < m :: Stands(cause, states[j])
    ensures Sleepers(states[m]) <= Sleepers(states[k]) - {labels[k].input.waiter}
    ensures forall w :: Sleepers(states[k]) <= {w} ==> Sleepers(states[m]) == {}
  {
    InvariantAlong(states, labels, k);
    SignalFindsNobodyDozing(states[k], labels[k].i, cause);
    SignalWakes(states[k], labels[k]);
    NobodyDozingAfterSignal(states[k], labels[k], cause);
    SleepersShrink(states, labels, k + 1, m, cause);
  }

  lemma NobodyDozingAfterSignal(s: System, l: Label, cause: Cause)
    requires Allowed(s, l) && l.Run? && ActionOf(s.threads[l.i]).Notify? && NobodyDozing(cause, s)
    ensures NobodyDozing(cause, After(s, l))
  {
    var s' := After(s, l);
    forall j | 0 <= j < |s'.threads|
      ensures !Dozing(cause, s'.threads[j])
    {
      assert !Dozing(cause, s.threads[j]);
      assert !s.threads[l.i].Worker?;
    }
  }

  /** Which steps wake a sleeper: a signal that picks it, or a spurious return of the wait. */
  predicate Wakes(s: System, l: Label, w: nat)
    requires l.Run? ==> l.i < |s.threads|
  {
    l.Run? && ((ActionOf(s.threads[l.i]).Notify? && l.input.waiter == w) || l.i == w)
  }

  /** In particular the timeout thread, which only writes CANCEL, leaves the worker asleep. */
  lemma OnlySignalsWake(s: System, l: Label, w: nat)
    requires Allowed(s, l) && w in Sleepers(s)
    ensures w !in Sleepers(After(s, l)) <==> Wakes(s, l, w)
    ensures l.Run? && s.threads[l.i].Timer? ==> w in Sleepers(After(s, l))
  {
    if l.Run? && l.i != w {
      OthersKept(s, l, w);
    }
  }

  /** The flag that the handler has raised is still up when it signals: lowering it takes the lock that it holds. */
  lemma {:induction false} FlagStaysUp(states: seq<System>, labels: seq<Label>, begin: nat, end: nat, i: nat)
    requires Execution(states, labels) && Invariant(states[0]) && begin <= end < |states|
    requires i < |states[begin].threads| && states[begin].threads[i] == Handler(HandlerSignal) && states[begin].signal
    requires forall k | begin <= k < end :: labels[k].Run? ==> labels[k].i != i
    ensures i < |states[end].threads| && states[end].threads[i] == Handler(HandlerSignal) && states[end].signal
    decreases end
  {
    if begin < end {
      FlagStaysUp(states, labels, begin, end - 1, i);
      InvariantAlong(states, labels, end - 1);
      var s, l := states[end - 1], labels[end - 1];
      assert Holds(s.threads[i], Sensor);
      if l.Run? {
        OthersKept(s, l, i);
        assert !Holds(s.threads[l.i], Sensor);
        LoweringNeedsTheLock(s.threads[l.i]);
      }
    }
  }

  lemma LoweringNeedsTheLock(t: Thread)
    ensures ActionOf(t) == PutSignal(false) ==> Holds(t, Sensor)
  {
  }

  /** So the handler's signal comes with its cause: a data-ready interrupt of a running session is not lost. */
  lemma HandlerSignalsFlag(states: seq<System>, labels: seq<Label>, k: nat, m: nat, i: nat)
    requires Execution(states, labels) && states[0] == INITIAL && k < m < |labels|
    requires labels[k].Run? && labels[k].i == i && states[k].threads[i] == Handler(HandlerSet)
    requires labels[m].Run? && labels[m].i == i && forall j | k < j < m :: labels[j].Run? ==> labels[j].i != i
    ensures ActionOf(states[m].threads[i]).Notify? && Stands(SignalRaised, states[m])
  {
    OwnStep(states[k], labels[k]);
    FlagStaysUp(states, labels, k + 1, m, i);
  }
}
