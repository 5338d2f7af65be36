/**
 How a CANCEL can end with help of every kind: replies that suit, new calls, and spurious returns of
 a wait.  What ends it without such help is told in SessionReplies and SessionAlone.
 */
module SessionEnding {
  import opened Protocol
  import opened Session
  import opened SessionSafety
  import opened SessionProgress
  import opened SessionRuns

  /** A worker that is asleep, or that no reading of the state word will keep from falling asleep. */
  predicate Drowsy(t: Thread) {
    t.Worker? && (t.pc == TestSignal || t.pc == Doze || t.pc == Asleep)
  }

  /** Replies that take a worker to the end of its session without another notice. */
  function ShortWay(t: Thread): Input
    requires t.Worker?
  {
    Input(if t.pc == Match then Accepted(true) else Failed(true), IsAsleep(t), 0)
  }

  lemma ShortWayStep(t: Thread, o: Observed, cancels: nat)
    requires Live(t) && o.value == Cancel && !ActionOf(t).Write?
    requires o.reply == ShortWay(t).reply && o.bit == ShortWay(t).bit
    ensures var t' := Advance(t, o, cancels); t'.Worker? && !t'.pc.NoticeLock? && (Drowsy(t') ==> Drowsy(t))
  {
  }

  /** One step of a live worker that no lock holds up. */
  lemma WorkerMoves(s: System, i: nat) returns (l: Label)
    requires Invariant(s) && s.state == Cancel && NoneCommitted(s)
    requires i < |s.threads| && Live(s.threads[i])
    requires ActionOf(s.threads[i]).Acquire? ==> Owner(s, ActionOf(s.threads[i]).lock) == None
    ensures Allowed(s, l) && l.Run? && l.i == i
    ensures var s', t := After(s, l), s.threads[i];
      && Invariant(s') && NoneCommitted(s') && i < |s'.threads|
      && (|| s'.state == Idle
          || (s'.state == Cancel && Live(s'.threads[i]) && s'.threads[i].kind == t.kind
              && StepsLeft(t.kind, s'.threads[i].pc) < StepsLeft(t.kind, t.pc)
              && !s'.threads[i].pc.NoticeLock? && (Drowsy(s'.threads[i]) ==> Drowsy(t))))
  {
    hide Invariant, NoneCommitted, Advance, StepsLeft, CommandsLeft;
    var t := s.threads[i];
    l := Run(i, ShortWay(t));
    WorkerIsAllowed(s, i);
    OwnStep(s, l);
    InvariantKept(s, l);
    CancelKept(s, l);
    Budget(t);
    if !ActionOf(t).Write? {
      StepSpends(t, SeenBy(s, l.input), s.cancels);
      ShortWayStep(t, SeenBy(s, l.input), s.cancels);
      StateKept(s, l);
    }
  }

  lemma WorkerIsAllowed(s: System, i: nat)
    requires i < |s.threads| && Live(s.threads[i])
    requires ActionOf(s.threads[i]).Acquire? ==> Owner(s, ActionOf(s.threads[i]).lock) == None
    ensures Allowed(s, Run(i, ShortWay(s.threads[i])))
  {
  }

  /** Waiting for the lock that a worker needs next. */
  lemma LockForWorker(s: System, i: nat) returns (labels: seq<Label>, s': System)
    requires Invariant(s) && s.state == Cancel && NoneCommitted(s)
    requires i < |s.threads| && Live(s.threads[i])
    requires s.threads[i].pc.NoticeLock? ==> !FullTable(s)
    ensures Reaches(s, labels, s') && Unaided(s, labels) && |labels| <= 6
    ensures Invariant(s') && NoneCommitted(s')
    ensures s'.state == Idle
      || (&& s'.state == Cancel && i < |s'.threads| && s'.threads[i] == s.threads[i]
          && (ActionOf(s.threads[i]).Acquire? ==> Owner(s', ActionOf(s.threads[i]).lock) == None))
  {
    hide NoneCommitted, Reaches, Unaided;
    var t := s.threads[i];
    labels, s' := [], s;
    assert Reaches(s, [], s) && Unaided(s, []) by { NoLabels(s); }
    if ActionOf(t).Acquire? && Owner(s, ActionOf(t).lock).Some? {
      var lock := ActionOf(t).lock;
      WaiterHoldsNothing(t, lock);
      HolderIsSane(s, i, lock);
      var holder := s.threads[Owner(s, lock).value];
      HolderReleases(holder, lock, SeenBy(s, Input(Rejected, true, 0)), 0);
      var outside: Outside := (i, n) => Input(Rejected, false, 0);
      labels, s' := FreeLock(s, lock, outside);
      AloneIsUnaided(s, labels, outside);
      assert Undisturbed(s, s', i);
    }
  }

  lemma NoLabels(s: System)
    ensures Reaches(s, [], s) && Unaided(s, [])
  {
  }

  lemma WaiterHoldsNothing(t: Thread, lock: Lock)
    requires t.Worker? && ActionOf(t) == Acquire(lock)
    ensures !Holds(t, lock) && !IsAsleep(t) && (lock == Lock.Device ==> t.pc.NoticeLock?)
  {
  }

  lemma HolderIsSane(s: System, i: nat, lock: Lock)
    requires Invariant(s) && NoneCommitted(s) && Owner(s, lock).Some?
    requires lock == Lock.Device ==> !FullTable(s)
    ensures Owner(s, lock).value < |s.threads|
    ensures var holder := s.threads[Owner(s, lock).value]; Holds(holder, lock) && !Clings(holder)
  {
    var o := Owner(s, lock).value;
    assert Holds(s.threads[o], lock);
    assert !Committed(s.threads[o]);
  }

  /**
   With a live worker and replies chosen to this end (every command fails, but a match is accepted)
   there is a run of bounded length to IDLE, of threads already there; a worker that is not on its
   way to sleep needs no spurious return of its wait.  A worker that already waits to send a notice
   needs that no enrolment sits on the lock for want of space.
   */
  lemma {:induction false} IdleIsWritten(s: System, i: nat) returns (labels: seq<Label>, s': System)
    requires Invariant(s) && s.state == Cancel && NoneCommitted(s)
    requires i < |s.threads| && Live(s.threads[i])
    requires s.threads[i].pc.NoticeLock? ==> !FullTable(s)
    ensures Reaches(s, labels, s') && s'.state == Idle
    ensures |labels| <= 7 * StepsLeft(s.threads[i].kind, s.threads[i].pc)
    ensures !Drowsy(s.threads[i]) ==> Unaided(s, labels)
    decreases StepsLeft(s.threads[i].kind, s.threads[i].pc)
  {
    hide Invariant, NoneCommitted, Allowed, After, StepsLeft, Live;
    var t := s.threads[i];
    Budget(t);
    labels, s' := LockForWorker(s, i);
    if s'.state == Cancel {
      var m := s';
      var l := WorkerMoves(m, i);
      var next := After(m, l);
      ReachesOne(m, l);
      assert !Drowsy(t) ==> Unaided(m, [l]);
      ReachesJoin(s, labels, m, [l], next);
      if !Drowsy(t) {
        UnaidedJoin(s, labels, m, [l]);
      }
      labels, s' := labels + [l], next;
      if next.state == Cancel {
        var more;
        more, s' := IdleIsWritten(next, i);
        ReachesJoin(s, labels, next, more, s');
        if !Drowsy(t) {
          UnaidedJoin(s, labels, next, more);
        }
        labels := labels + more;
      }
    }
  }

  // ----- exactly when IDLE can still be written

  /** A worker that can get to writing IDLE, or a start that can still create one. */
  ghost predicate CanEndBy(s: System, t: Thread) {
    || (Live(t) && (t.pc.NoticeLock? ==> !FullTable(s)))
    || (t.Starter? && (t.spc.Init? || t.spc.Spawn?))
  }

  ghost predicate CanEnd(s: System) {
    exists i | 0 <= i < |s.threads| :: CanEndBy(s, s.threads[i])
  }

  lemma OnlyTheLiveWriteIdle(t: Thread, o: Observed, cancels: nat)
    requires o.value == Cancel && !Committed(t)
    ensures ActionOf(t) == Write(Idle) ==> Live(t) && !t.pc.NoticeLock?
    ensures Live(Advance(t, o, cancels)) ==> Live(t)
    ensures var t' := Advance(t, o, cancels);
      t'.Starter? && (t'.spc.Init? || t'.spc.Spawn?) ==> t.Starter? && t.spc.Init?
    ensures ActionOf(t).Create? && ActionOf(t).child.Worker? ==> t.Starter? && t.spc.Spawn?
    ensures IsAsleep(t) ==> Live(t) && !t.pc.NoticeLock?
    ensures ActionOf(t).Create? ==> !ActionOf(t).child.Starter?
  {
  }

  lemma FullTableStays(s: System, l: Label)
    requires Invariant(s) && Allowed(s, l) && FullTable(s)
    ensures FullTable(After(s, l)) && (l.Run? ==> !s.threads[l.i].Worker? || !s.threads[l.i].pc.NoticeLock?)
  {
    hide Advance;
    var j :| 0 <= j < |s.threads| && s.threads[j].Starter? && s.threads[j].spc.NoSpace?;
    assert Holds(s.threads[j], Lock.Device);
    if l.Run? {
      assert l.i != j;
      OthersKept(s, l, j);
    }
    assert After(s, l).threads[j] == s.threads[j];
  }

  /** When nobody can end it, a CANCEL stands for ever. */
  lemma HopelessStep(s: System, l: Label)
    requires Invariant(s) && s.state == Cancel && NoneCommitted(s) && !CanEnd(s) && Allowed(s, l)
    ensures var s' := After(s, l); Invariant(s') && s'.state == Cancel && NoneCommitted(s') && !CanEnd(s')
  {
    hide Invariant, NoneCommitted, Advance, Live, FullTable, IsAsleep;
    var s' := After(s, l);
    InvariantKept(s, l);
    CancelKept(s, l);
    NobodyCommitted(s);
    if FullTable(s) {
      FullTableStays(s, l);
    }
    if l.Run? {
      assert !CanEndBy(s, s.threads[l.i]);
      OwnStep(s, l);
      OnlyTheLiveWriteIdle(s.threads[l.i], SeenBy(s, l.input), s.cancels);
      OnlyWritesChange(s, l);
    }
    forall j | 0 <= j < |s'.threads|
      ensures !CanEndBy(s', s'.threads[j])
    {
      if j >= |s.threads| {
        NewcomersCannotEnd(s, l, j);
      } else {
        assert !CanEndBy(s, s.threads[j]);
        OnlyTheLiveWriteIdle(s.threads[j], SeenBy(s, Input(Rejected, false, 0)), s.cancels);
        if l.Run? && l.i != j {
          OthersKept(s, l, j);
        }
      }
    }
  }

  lemma NobodyCommitted(s: System)
    requires NoneCommitted(s)
    ensures forall j | 0 <= j < |s.threads| :: !Committed(s.threads[j])
  {
  }

  lemma OnlyWritesChange(s: System, l: Label)
    requires Allowed(s, l) && l.Run?
    ensures After(s, l).state != s.state ==> ActionOf(s.threads[l.i]) == Write(After(s, l).state)
  {
    hide Advance, ActionOf;
  }

  lemma NewcomersCannotEnd(s: System, l: Label, j: nat)
    requires Allowed(s, l) && |s.threads| <= j < |After(s, l).threads|
    requires l.Run? ==> !CanEndBy(s, s.threads[l.i])
    ensures !CanEndBy(After(s, l), After(s, l).threads[j])
  {
    hide Advance, FullTable;
  }

  lemma {:induction false} HopelessRun(s: System, labels: seq<Label>, s': System)
    requires Invariant(s) && s.state == Cancel && NoneCommitted(s) && !CanEnd(s) && Reaches(s, labels, s')
    ensures s'.state == Cancel
    decreases |labels|
  {
    hide Invariant, NoneCommitted, CanEnd, Allowed, After;
    if labels != [] {
      HopelessStep(s, labels[0]);
      HopelessRun(After(s, labels[0]), labels[1..], s');
    }
  }

  /** A start that has passed its mark creates a worker. */
  lemma StartCreates(s: System, j: nat, outside: Outside) returns (labels: seq<Label>, s': System, i: nat)
    requires Invariant(s) && s.state == Cancel && NoneCommitted(s)
    requires j < |s.threads| && s.threads[j].Starter? && (s.threads[j].spc.Init? || s.threads[j].spc.Spawn?)
    requires s.threads[j].spc.Init? ==> outside(j, 0).bit
    ensures Reaches(s, labels, s') && Alone(s, labels, outside) && |labels| == if s.threads[j].spc.Init? then 2 else 1
    ensures Invariant(s') && s'.state == Cancel && NoneCommitted(s')
    ensures i < |s'.threads| && Live(s'.threads[i]) && s'.threads[i].pc == Begin
    decreases if s.threads[j].spc.Init? then 1 else 0
  {
    hide Invariant, NoneCommitted;
    var l := Run(j, Input(Rejected, true, 0));
    assert Allowed(s, l);
    var m := After(s, l);
    InvariantKept(s, l);
    CancelKept(s, l);
    StateKept(s, l);
    ReachesOne(s, l);
    AloneOne(s, l, outside);
    if s.threads[j].spc.Init? {
      labels, s', i := StartCreates(m, j, outside);
      ReachesJoin(s, [l], m, labels, s');
      AloneJoin(s, [l], m, labels, outside);
      labels := [l] + labels;
    } else {
      labels, s', i := [l], m, |s.threads|;
      SpawnStep(s, j);
    }
  }

  lemma SpawnStep(s: System, j: nat)
    requires j < |s.threads| && s.threads[j].Starter? && s.threads[j].spc.Spawn?
    ensures var m := After(s, Run(j, Input(Rejected, true, 0)));
      |m.threads| == |s.threads| + 1 && m.threads[|s.threads|] == Worker(s.threads[j].starts, Begin, 0, 0, 0, 0)
      && Live(m.threads[|s.threads|])
  {
  }

  /**
   From a reachable state in which CANCEL stands and is not about to be overwritten, IDLE can be
   written in some run at all, whatever helps, if and only if a live worker is left that does not
   wait for a device lock which a full table keeps, or a start that can still create a worker.
   */
  lemma EndingExactly(s: System)
    requires Invariant(s) && s.state == Cancel && NoneCommitted(s)
    ensures (exists labels, s' :: Reaches(s, labels, s') && s'.state == Idle) <==> CanEnd(s)
  {
    hide Invariant, NoneCommitted, Reaches, FullTable, Live;
    if CanEnd(s) {
      var i :| 0 <= i < |s.threads| && CanEndBy(s, s.threads[i]);
      if s.threads[i].Starter? {
        StartersAreNotLive(s.threads[i]);
        var labels, m, w := StartCreates(s, i, (k, n) => Input(Rejected, true, 0));
        var more, s' := IdleIsWritten(m, w);
        ReachesJoin(s, labels, m, more, s');
      } else {
        var labels, s' := IdleIsWritten(s, i);
      }
    } else if labels, s' :| Reaches(s, labels, s') && s'.state == Idle {
      HopelessRun(s, labels, s');
    }
  }

  lemma StartersAreNotLive(t: Thread)
    ensures t.Starter? ==> !Live(t)
  {
  }
}
