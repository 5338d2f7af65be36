/**
 Every worker thread of the concurrent session machine has a trace, so what holds of all traces
 holds of every worker in every interleaving.
 */
module SessionTraces {
  import opened Protocol
  import opened Session
  import opened SessionProgress
  import opened SessionWakeUp
  import opened Journal
  import opened WorkerTrace
  import opened WorkerScripts
  import opened AuthenticateScript

  /** A reply that is classified in this way when it answers a command whose `last` value is `word`. */
  function Answering(reply: Reply, word: nat): Answer
    requires word < 256
  {
    match reply
    case Failed(minusOne) => Response(if minusOne then -1 else 1, 0, Zeroed(ANSWER_DATA))
    case Rejected => Response(0, 1, Zeroed(ANSWER_DATA))
    case Accepted(last) => Response(0, 0, Zeroed(8) + [if last then word else 0] + Zeroed(ANSWER_DATA - 9))
  }

  lemma AnsweringWord(word: nat)
    requires word < 256
    ensures forall last :: Field(Answering(Accepted(last), word), 2) == if last then word else 0
  {
  }

  /** The event of a step with these observations. */
  function EventOf(kind: Kind, pc: WorkerPc, o: Observed): Event {
    match WorkerAction(pc)
    case Send(_) =>
      var command := CommandAt(kind, pc);
      Sent(if command.Some? then command.value else Commands.CaptureAbort, 0, 0, [],
           Answering(o.reply, if pc == ReadData then 2 else 1))
    case Read => Saw(o.value)
    case Write(value) => Put(value)
    case Acquire(lock) => Locked(lock)
    case Unlock(lock) => Unlocked(lock)
    case ReadSignal => SawSignal(o.signal)
    case PutSignal(flag) => SetSignal(flag)
    case Wait => Waited
    case Sleeping => Woke
    case _ => Tested(o.bit)
  }

  lemma StepFits(kind: Kind, pc: WorkerPc, o: Observed)
    requires pc != Over
    ensures Fits(kind, pc, EventOf(kind, pc, o))
  {
    CommandsOfSession(kind, pc);
  }

  lemma SameStepSent(kind: Kind, pc: WorkerPc, o: Observed)
    requires WorkerAction(pc).Send?
    ensures WorkerNext(kind, pc, See(EventOf(kind, pc, o))) == WorkerNext(kind, pc, o)
  {
    hide Field, Answering;
    AnsweringWord(if pc == ReadData then 2 else 1);
    AnsweringClass(o.reply, if pc == ReadData then 2 else 1);
    CommandsOfSession(kind, pc);
  }

  lemma AnsweringClass(reply: Reply, word: nat)
    requires word < 256
    ensures var a := Answering(reply, word);
      && (reply.Failed? ==> a.ret != 0 && (a.ret == -1 <==> reply.minusOne))
      && (reply.Rejected? ==> a.ret == 0 && a.result != 0)
      && (reply.Accepted? ==> IsAccepted(a))
  {
  }

  lemma SameStepOther(kind: Kind, pc: WorkerPc, o: Observed)
    requires !WorkerAction(pc).Send?
    ensures WorkerNext(kind, pc, See(EventOf(kind, pc, o))) == WorkerNext(kind, pc, o)
  {
    hide WorkerNext, WorkerAction, EventOf, See;
    EventShows(kind, pc, o);
    NextDepends(kind, pc, o, See(EventOf(kind, pc, o)));
  }

  /** The program depends only on what the step observes. */
  lemma NextDepends(kind: Kind, pc: WorkerPc, o: Observed, o': Observed)
    requires !WorkerAction(pc).Send?
    requires (WorkerAction(pc).Read? ==> o.value == o'.value)
      && (WorkerAction(pc).ReadSignal? ==> o.signal == o'.signal)
    requires WorkerAction(pc).Choose? ==> o.bit == o'.bit
    ensures WorkerNext(kind, pc, o) == WorkerNext(kind, pc, o')
  {
    hide CaptureFailed, CaptureDone, AfterNotice, Mark;
  }

  lemma EventShows(kind: Kind, pc: WorkerPc, o: Observed)
    requires !WorkerAction(pc).Send?
    ensures var o' := See(EventOf(kind, pc, o));
      && (WorkerAction(pc).Read? ==> o.value == o'.value) && (WorkerAction(pc).ReadSignal? ==> o.signal == o'.signal)
      && (WorkerAction(pc).Choose? ==> o.bit == o'.bit)
  {
    hide WorkerAction, CommandAt, Answering, Classify;
  }

  lemma StepHasEvent(kind: Kind, pc: WorkerPc, o: Observed)
    requires pc != Over
    ensures Next(kind, Some(pc), EventOf(kind, pc, o)) == Some(WorkerNext(kind, pc, o))
  {
    hide WorkerNext, EventOf, Fits, See;
    StepFits(kind, pc, o);
    if WorkerAction(pc).Send? {
      SameStepSent(kind, pc, o);
    } else {
      SameStepOther(kind, pc, o);
    }
  }

  lemma SleeperWakes(kind: Kind)
    ensures Next(kind, Some(Asleep), Woke) == Some(Woken)
  {
  }

  // ----- the trace of one worker in one execution

  /** What one step of the system adds to the trace of worker i. */
  function StepTrace(s: System, l: Label, i: nat): seq<Event> {
    if !l.Run? || l.i >= |s.threads| || i >= |s.threads| || !s.threads[i].Worker? then []
    else if l.i == i then [EventOf(s.threads[i].kind, s.threads[i].pc, SeenBy(s, l.input))]
    else if ActionOf(s.threads[l.i]).Notify? && l.input.waiter == i && IsAsleep(s.threads[i]) then [Woke]
    else []
  }

  /** Everything that thread i has done as a worker in the first k steps, in order. */
  function TraceOf(states: seq<System>, labels: seq<Label>, k: nat, i: nat): seq<Event>
    requires k <= |labels| < |states|
  {
    if k == 0 then []
    else TraceOf(states, labels, k - 1, i) + StepTrace(states[k - 1], labels[k - 1], i)
  }

  function OwnSteps(labels: seq<Label>, k: nat, i: nat): nat
    requires k <= |labels|
  {
    if k == 0 then 0
    else OwnSteps(labels, k - 1, i) + (if labels[k - 1].Run? && labels[k - 1].i == i then 1 else 0)
  }

  function CountSent(events: seq<Event>): nat {
    if events == [] then 0
    else CountSent(events[..|events| - 1]) + (if events[|events| - 1].Sent? then 1 else 0)
  }

  predicate IsAbort(e: Event) {
    e.Sent? && e.command == Commands.CaptureAbort
  }

  function CountAborts(events: seq<Event>): nat {
    if events == [] then 0
    else CountAborts(events[..|events| - 1]) + (if IsAbort(events[|events| - 1]) then 1 else 0)
  }

  /** The trace leads to where the worker is, and has as many commands and aborts as the worker counts. */
  ghost predicate Describes(events: seq<Event>, t: Thread)
    requires t.Worker?
  {
    Follow(t.kind, events) == Some(t.pc) && CountSent(events) == t.sent && CountAborts(events) == t.aborts
  }

  lemma DescribesNext(events: seq<Event>, t: Thread, o: Observed, cancels: nat)
    requires t.Worker? && t.pc != Over && Describes(events, t)
    ensures Describes(events + [EventOf(t.kind, t.pc, o)], Advance(t, o, cancels))
  {
    hide WorkerNext, Next, EventOf;
    var e := EventOf(t.kind, t.pc, o);
    StepHasEvent(t.kind, t.pc, o);
    FollowAppended(t.kind, events, e);
    EventSends(t.kind, t.pc, o);
    assert (events + [e])[..|events|] == events;
  }

  lemma EventSends(kind: Kind, pc: WorkerPc, o: Observed)
    ensures EventOf(kind, pc, o).Sent? <==> WorkerAction(pc).Send?
    ensures IsAbort(EventOf(kind, pc, o)) <==> WorkerAction(pc) == Send(true)
  {
    hide Answering;
    CommandsOfSession(kind, pc);
  }

  lemma DescribesWoken(events: seq<Event>, t: Thread)
    requires t.Worker? && t.pc == Asleep && Describes(events, t)
    ensures Describes(events + [Woke], t.(pc := Woken))
  {
    hide WorkerNext, Next;
    SleeperWakes(t.kind);
    FollowAppended(t.kind, events, Woke);
    assert (events + [Woke])[..|events|] == events;
  }

  /**
   In every interleaving the trace of a worker, taken from the steps of the execution and the
   values that it read there, is one of the worker program, up to where the worker is now.
   */
  lemma {:induction false} WorkerFollowsTrace(states: seq<System>, labels: seq<Label>, k: nat, i: nat)
    requires Execution(states, labels) && states[0] == INITIAL && k < |states|
    requires i < |states[k].threads| && states[k].threads[i].Worker?
    ensures Describes(TraceOf(states, labels, k, i), states[k].threads[i])
    ensures states[k].threads[i].steps == OwnSteps(labels, k, i)
  {
    hide Effect, Describes, EventOf, Advance, WorkerAction, Allowed, IsCall, After;
    assert k > 0;
    var s, l := states[k - 1], labels[k - 1];
    var t := states[k].threads[i];
    if i >= |s.threads| {
      NewWorkersBegin(s, l, i);
      NothingBefore(states, labels, k, i);
      FreshIsDescribed(t);
    } else if l.Arrive? {
      ArrivalsChangeNobody(s, l, i);
      WorkerFollowsTrace(states, labels, k - 1, i);
      assert TraceOf(states, labels, k, i) == TraceOf(states, labels, k - 1, i);
    } else if l.i == i {
      OwnStep(s, l);
      AdvanceWorker(s.threads[i], SeenBy(s, l.input), s.cancels);
      WorkerFollowsTrace(states, labels, k - 1, i);
      NotOver(s, l);
      DescribesNext(TraceOf(states, labels, k - 1, i), s.threads[i], SeenBy(s, l.input), s.cancels);
    } else {
      OtherStep(s, l, i);
      WorkerFollowsTrace(states, labels, k - 1, i);
      if StepTrace(s, l, i) == [Woke] {
        DescribesWoken(TraceOf(states, labels, k - 1, i), s.threads[i]);
      } else {
        assert TraceOf(states, labels, k, i) == TraceOf(states, labels, k - 1, i);
      }
    }
  }

  lemma AdvanceWorker(t: Thread, o: Observed, cancels: nat)
    ensures Advance(t, o, cancels).Worker? <==> t.Worker?
    ensures t.Worker? ==> Advance(t, o, cancels).kind == t.kind && Advance(t, o, cancels).steps == t.steps + 1
  {
    hide WorkerNext, WorkerAction;
  }

  /** Somebody else's step wakes a sleeping worker, or does nothing to its trace. */
  lemma OtherStep(s: System, l: Label, i: nat)
    requires Allowed(s, l) && l.Run? && i < |s.threads| && i != l.i
    ensures i < |After(s, l).threads|
    ensures After(s, l).threads[i].Worker? ==>
      || (After(s, l).threads[i] == s.threads[i] && StepTrace(s, l, i) == [])
      || (IsAsleep(s.threads[i]) && After(s, l).threads[i] == s.threads[i].(pc := Woken) && StepTrace(s, l,
        i) == [Woke])
  {
    hide WorkerAction, Advance, EventOf;
  }

  lemma FreshIsDescribed(t: Thread)
    requires t.Worker? && t.pc == Begin && t.sent == 0 && t.aborts == 0
    ensures Describes([], t)
  {
  }

  /** A thread that is not there yet has done nothing. */
  lemma {:induction false} NothingBefore(states: seq<System>, labels: seq<Label>, k: nat, i: nat)
    requires Execution(states, labels) && 0 < k < |states| && i >= |states[k - 1].threads|
    ensures TraceOf(states, labels, k, i) == [] && OwnSteps(labels, k, i) == 0
  {
    hide EventOf;
    if k > 1 {
      ThreadsStay(states[k - 2], labels[k - 2]);
      NothingBefore(states, labels, k - 1, i);
    }
  }

  lemma ThreadsStay(s: System, l: Label)
    requires Allowed(s, l)
    ensures |s.threads| <= |After(s, l).threads|
  {
    hide WorkerAction, Advance;
  }

  // ----- the scripts, for the workers of an execution

  /** What an enrolment worker has sent by now in a concurrent execution is a prefix of the script. */
  lemma EnrolmentInSession(states: seq<System>, labels: seq<Label>, k: nat, i: nat) returns (a: nat, j: nat, n: nat)
    requires Execution(states, labels) && states[0] == INITIAL && k < |states|
    requires i < |states[k].threads| && states[k].threads[i].Worker? && states[k].threads[i].kind == Enrolment
    ensures ScriptFits(PhaseOf(states[k].threads[i].pc), a, j, n)
    ensures Main(TraceOf(states, labels, k, i)) == Script(a, j, n)
  {
    hide ScriptFits, Script, PhaseOf, TraceOf;
    WorkerFollowsTrace(states, labels, k, i);
    a, j, n := EnrolmentTrace(TraceOf(states, labels, k, i), states[k].threads[i].pc);
  }

  /** What an authenticate worker has sent by now in a concurrent execution. */
  lemma AuthenticationInSession(states: seq<System>, labels: seq<Label>, k: nat, i: nat) returns (tries: nat)
    requires Execution(states, labels) && states[0] == INITIAL && k < |states|
    requires i < |states[k].threads| && states[k].threads[i].Worker? && states[k].threads[i].kind == Authentication
    ensures var events := TraceOf(states, labels, k, i);
      StageFits(StageOf(states[k].threads[i].pc), Main(events), Matches(events), tries)
  {
    hide StageFits, StageOf, TraceOf;
    WorkerFollowsTrace(states, labels, k, i);
    tries := AuthenticationTrace(TraceOf(states, labels, k, i), states[k].threads[i].pc);
  }

  lemma NewWorkersBegin(s: System, l: Label, i: nat)
    requires Allowed(s, l) && |s.threads| <= i < |After(s, l).threads| && After(s, l).threads[i].Worker?
    ensures var w := After(s, l).threads[i]; w.pc == Begin && w.sent == 0 && w.aborts == 0 && w.steps == 0
  {
    hide Advance;
    ThreadsAfter(s, l, i);
  }

  lemma NotOver(s: System, l: Label)
    requires Allowed(s, l) && l.Run? && s.threads[l.i].Worker?
    ensures s.threads[l.i].pc != Over
  {
  }

  lemma ArrivalsChangeNobody(s: System, l: Label, i: nat)
    requires Allowed(s, l) && l.Arrive? && i < |s.threads|
    ensures After(s, l).threads[i] == s.threads[i] && StepTrace(s, l, i) == []
  {
  }
}
