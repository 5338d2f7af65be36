/**
 A worker's run as the list of what it does to the outside: following the list through the
 program counters of the session machine tells whether the run is one of that machine's.
 */
module WorkerTrace {
  import opened Commands
  import opened Protocol
  import opened Session
  import opened Journal

  /** The command that a worker sends at this point. */
  function CommandAt(kind: Kind, pc: WorkerPc): Option<Command> {
    match pc
    case Begin => Some(if kind.Authentication? then VendorUnknown0 else EnrollBegin)
    case Begin2 => Some(VendorUnknownA)
    case CaptureStart => Some(Command.CaptureStart)
    case UpdateCal => Some(UpdateCalData)
    case ReadData => Some(CaptureReadData)
    case ProcessData => Some(CaptureProcessData)
    case CheckAbort(_) => Some(CaptureAbort)
    case Match => Some(MatchImageToTemplates)
    case Release => Some(PayloadRelease)
    case AddImage => Some(EnrollAddImage)
    case Finish => Some(EnrollFinish)
    case Bind1 | Bind2 => Some(PayloadBind)
    case Password1 | Password2 => Some(EnrollmentPasswordSet)
    case Token1 | Token2 => Some(GetAuthToken)
    case Uninit => Some(Uninitialize)
    case _ => None
  }

  /** The session machine sends exactly where a command is known, and aborts exactly with CaptureAbort. */
  lemma CommandsOfSession(kind: Kind, pc: WorkerPc)
    ensures WorkerAction(pc).Send? <==> CommandAt(kind, pc).Some?
    ensures WorkerAction(pc) == Send(true) <==> CommandAt(kind, pc) == Some(CaptureAbort)
  {
  }

  /** How the session machine sees a reply. */
  function Classify(command: Command, answer: Answer): Reply {
    if answer.ret != 0 then Failed(answer.ret == -1)
    else if answer.result != 0 then Rejected
    else Accepted((command == CaptureReadData && Field(answer, 2) == 2) || (command == EnrollAddImage && Field(answer, 2) == 1))
  }

  function See(e: Event): Observed {
    match e
    case Sent(command, _, _, _, answer) => Observed(Idle, false, None, Classify(command, answer), false)
    case Saw(value) => Observed(value, false, None, Rejected, false)
    case SawSignal(flag) => Observed(Idle, flag, None, Rejected, false)
    case Tested(bit) => Observed(Idle, false, None, Rejected, bit)
    case Spawned(bit) => Observed(Idle, false, None, Rejected, bit)
    case SawTimer(timer) => Observed(Idle, false, timer, Rejected, false)
    case _ => Observed(Idle, false, None, Rejected, false)
  }

  /** Whether the event is what the session machine does at this point. */
  predicate Fits(kind: Kind, pc: WorkerPc, e: Event) {
    match e
    case Sent(command, _, _, _, _) => CommandAt(kind, pc) == Some(command)
    case Saw(_) => WorkerAction(pc) == Read
    case Put(value) => WorkerAction(pc) == Write(value)
    case Locked(lock) => WorkerAction(pc) == Acquire(lock)
    case Unlocked(lock) => WorkerAction(pc) == Unlock(lock)
    case SawSignal(_) => WorkerAction(pc) == ReadSignal
    case SetSignal(flag) => WorkerAction(pc) == PutSignal(flag)
    case Waited => WorkerAction(pc) == Wait
    case Woke => WorkerAction(pc) == Sleeping
    case Tested(_) => WorkerAction(pc) == Choose
    case _ => false
  }

  function Next(kind: Kind, at: Option<WorkerPc>, e: Event): Option<WorkerPc> {
    if at.Some? && Fits(kind, at.value, e) then Some(WorkerNext(kind, at.value, See(e))) else None
  }

  /** Where the events lead a worker that has just been created; nowhere if they are not its own. */
  function Follow(kind: Kind, events: seq<Event>): Option<WorkerPc> {
    if events == [] then Some(Begin)
    else Next(kind, Follow(kind, events[..|events| - 1]), events[|events| - 1])
  }

  lemma FollowAppended(kind: Kind, events: seq<Event>, e: Event)
    ensures Follow(kind, events + [e]) == Next(kind, Follow(kind, events), e)
  {
    assert (events + [e])[..|events|] == events;
  }

  /** The steps of vcs_uninit. */
  lemma CloseTested(kind: Kind, bit: bool)
    ensures Next(kind, Some(Closing), Tested(bit)) == Some(if bit then Token1 else Uninit)
  {
  }

  lemma CloseTokens(kind: Kind, e1: Event, e2: Event)
    requires e1.Sent? && e2.Sent? && e1.command == e2.command == GetAuthToken
    ensures Next(kind, Some(Token1), e1) == Some(Token2) && Next(kind, Some(Token2), e2) == Some(Uninit)
  {
  }

  lemma CloseEnd(kind: Kind, e: Event)
    requires e.Sent? && e.command == Uninitialize
    ensures Next(kind, Some(Uninit), e) == Some(UninitIdle)
    ensures Next(kind, Some(UninitIdle), Put(Idle)) == Some(AfterClosing(kind))
  {
  }

  function AfterClosing(kind: Kind): WorkerPc {
    if kind.Authentication? then FinalIdle else Over
  }

  /** Whether an event may happen while an image is captured, or a notice sent. */
  predicate IsCaptureEvent(e: Event) {
    e.Sent? ==> IsCaptureCommand(e.command)
  }

  predicate IsCaptureCommand(command: Command) {
    match command
    case CaptureStart | UpdateCalData | CaptureReadData | CaptureProcessData | CaptureAbort => true
    case _ => false
  }

  // ----- enrolled images

  /** An image that the app took: whether it was the last one wanted. */
  function ImageOf(e: Event): seq<bool> {
    if e.Sent? && e.command == EnrollAddImage && IsAccepted(e.answer) then [Field(e.answer, 2) == 1] else []
  }

  function Images(events: seq<Event>): seq<bool> {
    if events == [] then []
    else Images(events[..|events| - 1]) + ImageOf(events[|events| - 1])
  }

  lemma ImagesAppended(events: seq<Event>, e: Event)
    ensures Images(events + [e]) == Images(events) + ImageOf(e)
  {
    assert (events + [e])[..|events|] == events;
  }
}
