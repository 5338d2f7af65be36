/**
 What a worker does after it has answered a cancel with CaptureAbort.  At two of the three places
 where a capture tests for a cancel the worker then ends.  At the third, the guard of the wait, the
 outcome of the test is dropped and the state word is read again, so that the worker goes on
 capturing when somebody has started a new session in between.
 */
module AfterAbort {
  import opened Protocol
  import opened Session
  import opened Journal
  import opened WorkerTrace
  import opened WorkerScripts
  import opened AuthenticateScript

  /** Where the worker is before event k. */
  ghost predicate IsAt(kind: Kind, events: seq<Event>, k: nat, pc: WorkerPc) {
    k <= |events| && Follow(kind, events[..k]) == Some(pc)
  }

  lemma Step(kind: Kind, events: seq<Event>, k: nat, pc: WorkerPc)
    requires Follow(kind, events) == Some(Over) && IsAt(kind, events, k, pc) && pc != Over
    ensures k < |events| && Fits(kind, pc, events[k])
    ensures IsAt(kind, events, k + 1, WorkerNext(kind, pc, See(events[k])))
  {
    hide WorkerNext, Fits, See, Follow;
    assert events[..|events|] == events;
    FollowPrefix(kind, events, k);
    FollowPrefix(kind, events, k + 1);
  }

  /** A test of the state word: one reading, or two. */
  lemma Test(kind: Kind, events: seq<Event>, k: nat, site: Site)
    requires Follow(kind, events) == Some(Over) && IsAt(kind, events, k, CheckFirst(site))
    ensures k < |events| && events[k].Saw?
    ensures events[k].value == Idle ==> IsAt(kind, events, k + 1, Stopped(kind, site))
    ensures events[k].value != Idle ==>
      && k + 1 < |events| && events[k + 1].Saw?
      && IsAt(kind, events, k + 2, if events[k + 1].value == Cancel then CheckAbort(site) else GoesOn(site))
  {
    hide Follow, IsAt, Stopped, GoesOn;
    Step(kind, events, k, CheckFirst(site));
    if events[k].value != Idle {
      Step(kind, events, k + 1, CheckSecond(site));
    }
  }

  /** The answer to a cancel. */
  lemma Answer(kind: Kind, events: seq<Event>, k: nat, site: Site)
    requires Follow(kind, events) == Some(Over) && IsAt(kind, events, k, CheckAbort(site))
    ensures k + 1 < |events| && events[k].Sent? && events[k].command == Commands.CaptureAbort
      && events[k + 1] == Put(Idle)
    ensures IsAt(kind, events, k + 2, Stopped(kind, site))
  {
    hide Follow, IsAt, Stopped;
    Step(kind, events, k, CheckAbort(site));
    Step(kind, events, k + 1, CheckIdle(site));
  }

  lemma LeaveGuard(kind: Kind, events: seq<Event>, k: nat)
    requires Follow(kind, events) == Some(Over) && IsAt(kind, events, k, WaitUnlock)
    ensures k < |events| && events[k] == Unlocked(Sensor) && IsAt(kind, events, k + 1, CheckFirst(AfterWait))
  {
    hide Follow, IsAt;
    Step(kind, events, k, WaitUnlock);
  }

  lemma LowerFlag(kind: Kind, events: seq<Event>, k: nat)
    requires Follow(kind, events) == Some(Over) && IsAt(kind, events, k, ClearLock)
    ensures k + 2 < |events| && !events[k].Sent? && !events[k + 1].Sent? && !events[k + 2].Sent?
    ensures IsAt(kind, events, k + 3, CheckFirst(ReadLoop))
  {
    hide Follow, IsAt;
    Step(kind, events, k, ClearLock);
    Step(kind, events, k + 1, ClearSignal);
    Step(kind, events, k + 2, ClearUnlock);
  }

  lemma Reads(kind: Kind, events: seq<Event>, k: nat)
    requires Follow(kind, events) == Some(Over) && IsAt(kind, events, k, ReadData)
    ensures k < |events| && IsRead(events[k])
  {
    hide Follow, IsAt;
    Step(kind, events, k, ReadData);
  }

  predicate IsRead(e: Event) {
    e.Sent? && e.command == Commands.CaptureReadData
  }

  /** After a failed capture nothing is sent but the shutdown. */
  lemma FailureEnds(kind: Kind, events: seq<Event>, k: nat)
    requires Follow(kind, events) == Some(Over) && IsAt(kind, events, k, CaptureFailed(kind))
    ensures forall m | k <= m < |events| :: IsQuiet(events[m])
  {
    hide Follow, Next;
    if kind.Authentication? {
      EndedForGood(events, k, Over);
    } else {
      EndingForGood(events, k, Over);
    }
  }

  /** After an abort in the read loop, or behind the wait, the worker sends nothing more but the shutdown. */
  lemma AbortEnds(kind: Kind, events: seq<Event>, k: nat, site: Site)
    requires Follow(kind, events) == Some(Over) && IsAt(kind, events, k, CheckAbort(site)) && site != Guard
    ensures forall m | k < m < |events| :: IsQuiet(events[m])
  {
    hide Follow, IsAt, CaptureFailed, IsQuiet, Stopped;
    StoppedElsewhere(kind, site);
    Answer(kind, events, k, site);
    FailureEnds(kind, events, k + 2);
    assert IsQuiet(events[k + 1]) by { PutIsQuiet(); }
  }

  lemma StoppedElsewhere(kind: Kind, site: Site)
    ensures site != Guard ==> Stopped(kind, site) == CaptureFailed(kind)
    ensures Stopped(kind, Guard) == WaitUnlock
  {
  }

  lemma PutIsQuiet()
    ensures IsQuiet(Put(Idle))
  {
  }

  /** A test and what comes of it, when the capture fails if it stops. */
  lemma TestOrEnd(kind: Kind, events: seq<Event>, k: nat, site: Site)
    requires Follow(kind, events) == Some(Over) && IsAt(kind, events, k, CheckFirst(site)) && site != Guard
    ensures k < |events| && events[k].Saw? && (events[k].value != Idle ==> k + 1 < |events| && events[k + 1].Saw?)
    ensures
      if Continues(events, k) then IsAt(kind, events, k + 2, GoesOn(site))
      else forall m | k <= m < |events| :: !IsRead(events[m])
  {
    hide Follow, IsAt, GoesOn, CaptureFailed, Stopped;
    StoppedElsewhere(kind, site);
    Test(kind, events, k, site);
    if !Continues(events, k) {
      if events[k].value == Idle {
        FailureEnds(kind, events, k + 1);
      } else {
        Answer(kind, events, k + 2, site);
        AbortEnds(kind, events, k + 2, site);
      }
      forall m | k <= m < |events|
        ensures !IsRead(events[m])
      {
        assert m > k + 2 ==> IsQuiet(events[m]);
      }
    }
  }

  /** The two readings at k and k + 1 find neither IDLE nor, at the second, CANCEL. */
  predicate Continues(events: seq<Event>, k: nat) {
    k + 1 < |events| && events[k].Saw? && events[k].value != Idle && events[k + 1].Saw? && events[k + 1].value != Cancel
  }

  /**
   After an abort at the guard the worker captures on exactly if its next two tests of the state
   word, of two readings each, find a session: the first not IDLE and the second not CANCEL.
   */
  lemma RevivedExactly(kind: Kind, events: seq<Event>, k: nat)
    requires Follow(kind, events) == Some(Over) && IsAt(kind, events, k, CheckAbort(Guard))
    ensures (exists m | k < m < |events| :: IsRead(events[m])) <==> Continues(events, k + 3) && Continues(events, k + 8)
  {
    hide Follow, IsAt;
    Answer(kind, events, k, Guard);
    LeaveGuard(kind, events, k + 2);
    TestOrEnd(kind, events, k + 3, AfterWait);
    if Continues(events, k + 3) {
      LowerFlag(kind, events, k + 5);
      TestOrEnd(kind, events, k + 8, ReadLoop);
      if Continues(events, k + 8) {
        Reads(kind, events, k + 10);
      }
    }
  }
}
