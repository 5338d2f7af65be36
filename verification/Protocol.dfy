/**
 The vocabulary that the session machine and the device share: worker states and the commands
 sent to the secure app.
 */
module Protocol {

  datatype Option<+T> = None | Some(value: T)

  /** The values of the state word tz.state. */
  datatype WorkerState = Idle | Enroll | Scan | Cancel

  /** What a worker thread was started for. */
  datatype Kind = Authentication | Enrolment

  /** The value of the state word that a session of this kind runs under. */
  function Mark(kind: Kind): WorkerState {
    if kind.Authentication? then Scan else Enroll
  }
}
