/**
 The fingerprint session as a transition system.  Every thread has a program counter; a step is
 one access to what the threads share: the state word, the two mutexes, the sensor's signal flag
 and condition variable.  Replies of the secure app and the outcome of every call outside the
 model are chosen by the step's input, so each theorem holds for every reply and every schedule.
 */
module Session {
  import opened Protocol

  datatype Lock = Sensor | Device

  /** How the code classifies a reply; `last` is the value of data[2] that it tests for. */
  datatype Reply = Failed(minusOne: bool) | Rejected | Accepted(last: bool)

  // ----- the worker threads: vcs_authenticate and vcs_enroll, with vcs_start_capture inside

  /** The three places where a capture calls vcs_check_state. */
  datatype Site = Guard | AfterWait | ReadLoop

  /** Where a worker goes on after sending a notice. */
  datatype Then = ToCapture | ToTop | ToClose | ToFinish | ToSecondNotice | ToDone

  datatype WorkerPc =
    | Begin | Begin2 | Top
    | CaptureStart | UpdateCal | ArmLock | ArmUnlock
    | WaitLock | CheckFirst(site: Site) | CheckSecond(site: Site) | CheckAbort(site: Site) | CheckIdle(site: Site)
    | TestSignal | Doze | Asleep | Woken | WaitUnlock
    | ClearLock | ClearSignal | ClearUnlock
    | ReadData | ProcessData
    | Match | Release
    | AddImage | EnrollNotice(last: bool) | Finish | Bind1 | Bind2 | Password1 | Password2
    | CloseIdle | GiveUpIdle
    | NoticeLock(next: Then) | NoticeUnlock(next: Then)
    | Closing | Token1 | Token2 | Uninit | UninitIdle | FinalIdle | Verdict
    | Over

  /** What one step of a thread does to the shared state. */
  datatype Action =
    | Send(abort: bool)
    | Read
    | Write(value: WorkerState)
    | Acquire(lock: Lock)
    | Unlock(lock: Lock)
    | ReadSignal
    | PutSignal(flag: bool)
    | ReadTimer
    | DropTimer
    | Join(timer: nat)
    | Wait
    | Sleeping
    | Notify
    | Choose
    | Create(child: Thread)
    | Halt

  /** What a step observes: the shared words, and the inputs it is given. */
  datatype Observed = Observed(value: WorkerState, signal: bool, timer: Option<nat>, reply: Reply, bit: bool)

  function WorkerAction(pc: WorkerPc): Action {
    match pc
    case Begin | Begin2 | CaptureStart | UpdateCal | ReadData | ProcessData | Match | Release | AddImage
       | Finish | Bind1 | Bind2 | Password1 | Password2 | Token1 | Token2 | Uninit => Send(false)
    case CheckAbort(_) => Send(true)
    case Top | CheckFirst(_) | CheckSecond(_) => Read
    case CheckIdle(_) | CloseIdle | GiveUpIdle | UninitIdle | FinalIdle => Write(Idle)
    case ArmLock | WaitLock | Woken | ClearLock => Acquire(Sensor)
    case ArmUnlock | WaitUnlock | ClearUnlock => Unlock(Sensor)
    case NoticeLock(_) => Acquire(Device)
    case NoticeUnlock(_) => Unlock(Device)
    case TestSignal => ReadSignal
    case ClearSignal => PutSignal(false)
    case Doze => Wait
    case Asleep => Sleeping
    case EnrollNotice(_) | Closing | Verdict => Choose
    case Over => Halt
  }

  /** Where a capture that returned -1 leaves the worker, and where any other return value does. */
  function CaptureFailed(kind: Kind): WorkerPc {
    if kind.Authentication? then Closing else CloseIdle
  }

  function CaptureDone(kind: Kind): WorkerPc {
    if kind.Authentication? then Match else AddImage
  }

  /** vcs_check_state returned 1, or 0. */
  function Stopped(kind: Kind, site: Site): WorkerPc {
    if site.Guard? then WaitUnlock else CaptureFailed(kind)
  }

  function GoesOn(site: Site): WorkerPc {
    match site
    case Guard => TestSignal
    case AfterWait => ClearLock
    case ReadLoop => ReadData
  }

  function AfterNotice(next: Then): WorkerPc {
    match next
    case ToCapture => CaptureStart
    case ToTop => Top
    case ToClose => Closing
    case ToFinish => Finish
    case ToSecondNotice => NoticeLock(ToDone)
    case ToDone => Over
  }

  function WorkerNext(kind: Kind, pc: WorkerPc, o: Observed): WorkerPc {
    match pc
    case Begin =>
      if kind.Authentication? then Top
      else if o.reply.Accepted? then Begin2 else GiveUpIdle
    case Begin2 => if o.reply.Accepted? then Top else GiveUpIdle
    case Top =>
      if o.value == Mark(kind) then CaptureStart
      else if kind.Authentication? then Closing else Finish
    // vcs_start_capture
    case CaptureStart =>
      if o.reply.Accepted? then UpdateCal
      else if o.reply == Failed(true) then CaptureFailed(kind)
      else CaptureDone(kind)
    case UpdateCal => ArmLock
    case ArmLock => ArmUnlock
    case ArmUnlock => WaitLock
    case WaitLock => CheckFirst(Guard)
    case CheckFirst(site) => if o.value == Idle then Stopped(kind, site) else CheckSecond(site)
    case CheckSecond(site) => if o.value == Cancel then CheckAbort(site) else GoesOn(site)
    case CheckAbort(site) => CheckIdle(site)
    case CheckIdle(site) => Stopped(kind, site)
    case TestSignal => if o.signal then WaitUnlock else Doze
    case Doze => Asleep
    case Asleep => Woken
    case Woken => CheckFirst(Guard)
    case WaitUnlock => CheckFirst(AfterWait)
    case ClearLock => ClearSignal
    case ClearSignal => ClearUnlock
    case ClearUnlock => CheckFirst(ReadLoop)
    case ReadData => if o.reply == Accepted(true) then ProcessData else CheckFirst(ReadLoop)
    case ProcessData =>
      if o.reply.Failed? then CaptureFailed(kind)
      else if o.reply.Rejected? then NoticeLock(ToCapture)
      else CaptureDone(kind)
    // vcs_authenticate
    case Match =>
      if o.reply.Failed? then NoticeLock(ToClose)
      else if o.reply.Rejected? then NoticeLock(ToTop)
      else Release
    case Release => Closing
    // vcs_enroll
    case AddImage =>
      if o.reply.Failed? then GiveUpIdle
      else if o.reply.Rejected? then NoticeLock(ToTop)
      else EnrollNotice(o.reply.last)
    case EnrollNotice(last) =>
      if o.bit then NoticeLock(if last then ToFinish else ToTop)
      else if last then Finish else Top
    case Finish => Bind1
    case Bind1 => Bind2
    case Bind2 => Password1
    case Password1 => Password2
    case Password2 => CloseIdle
    case CloseIdle => Closing
    case GiveUpIdle => NoticeLock(ToDone)
    // notices and vcs_uninit
    case NoticeLock(next) => NoticeUnlock(next)
    case NoticeUnlock(next) => AfterNotice(next)
    case Closing => if o.bit then Token1 else Uninit
    case Token1 => Token2
    case Token2 => Uninit
    case Uninit => UninitIdle
    case UninitIdle => if kind.Authentication? then FinalIdle else Over
    case FinalIdle => Verdict
    case Verdict => if o.bit then NoticeLock(ToSecondNotice) else Over
    case Over => Over
  }

  // ----- the HAL calls, the timeout thread and the data-ready handler

  /** fingerprint_authenticate and fingerprint_enroll; Reading(4) is the reading that decides. */
  datatype StarterPc =
    | LockDevice | LookForSlot | NoSpace | Reading(n: nat) | SetMark | Init | Spawn | SpawnTimer | UnlockDevice | Returned

  function StarterAction(kind: Kind, pc: StarterPc): Action {
    match pc
    case LockDevice | NoSpace => Acquire(Device)
    case LookForSlot | Init => Choose
    case Reading(_) => Read
    case SetMark => Write(Mark(kind))
    case Spawn => Create(Worker(kind, Begin, 0, 0, 0, 0))
    case SpawnTimer => Create(Timer(TimerWaiting))
    case UnlockDevice => Unlock(Device)
    case Returned => Halt
  }

  function StarterNext(kind: Kind, pc: StarterPc, o: Observed): StarterPc {
    match pc
    case LockDevice => if kind.Authentication? then Reading(0) else LookForSlot
    case LookForSlot => if o.bit then Reading(4) else NoSpace
    case NoSpace => NoSpace
    case Reading(n) =>
      if n < 4 then Reading(n + 1)
      else if o.value == Idle then SetMark else UnlockDevice
    case SetMark => Init
    case Init => if o.bit then Spawn else UnlockDevice
    case Spawn => if o.bit && kind.Enrolment? then SpawnTimer else UnlockDevice
    case SpawnTimer => UnlockDevice
    case UnlockDevice => Returned
    case Returned => Returned
  }

  /** fingerprint_cancel, which joins the timeout thread that it finds. */
  datatype CancellerPc =
    | Handshake | Joining(timer: nat) | Dropping | CancelFirst | CancelSecond | SetCancel | LockSensor | SignalSensor | UnlockSensor
    | Spin | CancelNoticeLock | CancelNoticeUnlock | CancelReturned

  function CancellerAction(pc: CancellerPc): Action {
    match pc
    case Handshake => ReadTimer
    case Joining(timer) => Join(timer)
    case Dropping => DropTimer
    case CancelFirst | CancelSecond | Spin => Read
    case SetCancel => Write(Cancel)
    case LockSensor => Acquire(Sensor)
    case SignalSensor => Notify
    case UnlockSensor => Unlock(Sensor)
    case CancelNoticeLock => Acquire(Device)
    case CancelNoticeUnlock => Unlock(Device)
    case CancelReturned => Halt
  }

  function CancellerNext(pc: CancellerPc, o: Observed): CancellerPc {
    match pc
    case Handshake => if o.timer.Some? then Joining(o.timer.value) else CancelFirst
    case Joining(_) => Dropping
    case Dropping => CancelFirst
    case CancelFirst => if o.value == Idle then CancelReturned else CancelSecond
    case CancelSecond => if o.value == Cancel then CancelReturned else SetCancel
    case SetCancel => LockSensor
    case LockSensor => SignalSensor
    case SignalSensor => UnlockSensor
    case UnlockSensor => Spin
    case Spin => if o.value == Idle then CancelNoticeLock else Spin
    case CancelNoticeLock => CancelNoticeUnlock
    case CancelNoticeUnlock => CancelReturned
    case CancelReturned => CancelReturned
  }

  /** vcs_timeout. */
  datatype TimerPc =
    | TimerWaiting | TimerFirst | TimerSecond | TimerCancel | TimerSpin | TimerNoticeLock | TimerNoticeUnlock | TimerOver

  function TimerAction(pc: TimerPc): Action {
    match pc
    case TimerWaiting => Choose
    case TimerFirst | TimerSecond | TimerSpin => Read
    case TimerCancel => Write(Cancel)
    case TimerNoticeLock => Acquire(Device)
    case TimerNoticeUnlock => Unlock(Device)
    case TimerOver => Halt
  }

  function TimerNext(pc: TimerPc, o: Observed): TimerPc {
    match pc
    case TimerWaiting => if o.bit then TimerFirst else TimerOver
    case TimerFirst => if o.value == Idle then TimerNoticeLock else TimerSecond
    case TimerSecond => if o.value == Cancel then TimerNoticeLock else TimerCancel
    case TimerCancel => TimerSpin
    case TimerSpin => if o.value == Idle then TimerNoticeLock else TimerSpin
    case TimerNoticeLock => TimerNoticeUnlock
    case TimerNoticeUnlock => TimerOver
    case TimerOver => TimerOver
  }

  /** sensor_process_signal. */
  datatype HandlerPc =
    | HandlerHandshake | HandlerDrop | HandlerLock | HandlerFirst | HandlerSecond | HandlerSet | HandlerSignal | HandlerUnlock | HandlerOver

  function HandlerAction(pc: HandlerPc): Action {
    match pc
    case HandlerHandshake => ReadTimer
    case HandlerDrop => DropTimer
    case HandlerLock => Acquire(Sensor)
    case HandlerFirst | HandlerSecond => Read
    case HandlerSet => PutSignal(true)
    case HandlerSignal => Notify
    case HandlerUnlock => Unlock(Sensor)
    case HandlerOver => Halt
  }

  function HandlerNext(pc: HandlerPc, o: Observed): HandlerPc {
    match pc
    case HandlerHandshake => if o.timer.Some? then HandlerDrop else HandlerLock
    case HandlerDrop => HandlerLock
    case HandlerLock => HandlerFirst
    case HandlerFirst => if o.value == Idle then HandlerSignal else HandlerSecond
    case HandlerSecond => if o.value == Cancel then HandlerSignal else HandlerSet
    case HandlerSet => HandlerSignal
    case HandlerSignal => HandlerUnlock
    case HandlerUnlock => HandlerOver
    case HandlerOver => HandlerOver
  }

  // ----- the system

  /**
   A worker also carries its history: commands sent, CaptureAbort commands among them, own steps
   taken, and how often CANCEL had been written when it last wrote IDLE.
   */
  datatype Thread =
    | Worker(kind: Kind, pc: WorkerPc, sent: nat, aborts: nat, steps: nat, seen: nat)
    | Starter(starts: Kind, spc: StarterPc)
    | Canceller(cpc: CancellerPc)
    | Timer(tpc: TimerPc)
    | Handler(hpc: HandlerPc)

  function ActionOf(t: Thread): Action {
    match t
    case Worker(_, pc, _, _, _, _) => WorkerAction(pc)
    case Starter(kind, pc) => StarterAction(kind, pc)
    case Canceller(pc) => CancellerAction(pc)
    case Timer(pc) => TimerAction(pc)
    case Handler(pc) => HandlerAction(pc)
  }

  /** The thread after its step; `cancels` counts the CANCEL writes so far. */
  function Advance(t: Thread, o: Observed, cancels: nat): Thread {
    match t
    case Worker(kind, pc, sent, aborts, steps, seen) =>
      var action := WorkerAction(pc);
      Worker(kind, WorkerNext(kind, pc, o),
             if action.Send? then sent + 1 else sent,
             if action == Send(true) then aborts + 1 else aborts,
             steps + 1,
             if action == Write(Idle) then cancels else seen)
    case Starter(kind, pc) => Starter(kind, StarterNext(kind, pc, o))
    case Canceller(pc) => Canceller(CancellerNext(pc, o))
    case Timer(pc) => Timer(TimerNext(pc, o))
    case Handler(pc) => Handler(HandlerNext(pc, o))
  }

  predicate IsAsleep(t: Thread) {
    t.Worker? && t.pc == Asleep
  }

  datatype System = System(
    state: WorkerState,
    signal: bool,
    sensorOwner: Option<nat>,
    deviceOwner: Option<nat>,
    threads: seq<Thread>,
    cancels: nat,
    timer: Option<nat>)

  const INITIAL := System(Idle, false, None, None, [], 0, None)

  function Owner(s: System, lock: Lock): Option<nat> {
    if lock.Sensor? then s.sensorOwner else s.deviceOwner
  }

  function SetOwner(s: System, lock: Lock, owner: Option<nat>): System {
    if lock.Sensor? then s.(sensorOwner := owner) else s.(deviceOwner := owner)
  }

  /** The inputs of a step: a reply, a yes-or-no outcome, and which waiter a signal wakes. */
  datatype Input = Input(reply: Reply, bit: bool, waiter: nat)

  datatype Label = Arrive(caller: Thread) | Run(i: nat, input: Input)

  /** The calls that may come in at any time. */
  predicate IsCall(t: Thread) {
    || (t.Starter? && t.spc == LockDevice)
    || t == Canceller(Handshake)
    || t == Handler(HandlerHandshake)
  }

  ghost predicate Allowed(s: System, l: Label) {
    match l
    case Arrive(t) => IsCall(t)
    case Run(i, input) =>
      i < |s.threads| &&
      match ActionOf(s.threads[i])
      case Acquire(lock) => Owner(s, lock) == None
      case Sleeping => input.bit
      case Join(j) => j < |s.threads| && s.threads[j] == Timer(TimerOver)
      case Notify =>
        || (input.waiter < |s.threads| && IsAsleep(s.threads[input.waiter]))
        || forall j | 0 <= j < |s.threads| :: !IsAsleep(s.threads[j])
      case Halt => false
      case _ => true
  }

  function SeenBy(s: System, input: Input): Observed {
    Observed(s.state, s.signal, s.timer, input.reply, input.bit)
  }

  function Effect(s: System, i: nat, action: Action, input: Input): System
    requires i < |s.threads|
  {
    match action
    case Write(value) => s.(state := value, cancels := if value == Cancel then s.cancels + 1 else s.cancels)
    case Acquire(lock) => SetOwner(s, lock, Some(i))
    case Unlock(lock) => SetOwner(s, lock, None)
    case PutSignal(flag) => s.(signal := flag)
    case Wait => s.(sensorOwner := None)
    case Notify =>
      if input.waiter < |s.threads| && IsAsleep(s.threads[input.waiter])
      then s.(threads := s.threads[input.waiter := s.threads[input.waiter].(pc := Woken)])
      else s
    case DropTimer => s.(timer := None)
    case Create(child) =>
      if !input.bit then s
      else s.(threads := s.threads + [child], timer := if child.Timer? then Some(|s.threads|) else s.timer)
    case _ => s
  }

  function After(s: System, l: Label): System
    requires Allowed(s, l)
  {
    match l
    case Arrive(t) => s.(threads := s.threads + [t])
    case Run(i, input) =>
      var t := s.threads[i];
      var s' := Effect(s, i, ActionOf(t), input);
      s'.(threads := s'.threads[i := Advance(t, SeenBy(s, input), s.cancels)])
  }

  /** states[0] is the start, and each label leads from one state to the next. */
  ghost predicate Execution(states: seq<System>, labels: seq<Label>) {
    && |states| == |labels| + 1
    && forall k | 0 <= k < |labels| :: Allowed(states[k], labels[k]) && states[k + 1] == After(states[k], labels[k])
  }
}
