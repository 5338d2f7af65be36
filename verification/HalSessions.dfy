/**
 The life of an open device: sessions of both kinds, and the opening and closing of the auth session,
 in any order, each with its own start and end of the app.
 */
module HalSessions {
  import opened Protocol
  import opened Journal
  import opened TrustZone
  import opened Slots
  import opened Device
  import opened AuthenticateWorker
  import opened EnrollWorker

  /** What is done between one start of the app and its end. */
  datatype Job =
    | Nothing
    | OpenAuthSession
    | CloseAuthSession
    | RunAuthentication(readings: seq<WorkerState>)
    | RunEnrolment(readings: seq<WorkerState>, inserted: bool)

  /** A job, and whether the app can be loaded for it and its bandwidth set. */
  datatype Task = Task(job: Job, loaded: bool, bandwidth: bool)

  /**
   Whatever is done in whatever order, and whatever the app replies: every command carries the auth
   token, the session token and the calibration data that the replies so far make due.
   */
  method RunAll(tz: TrustZone, dev: FingerprintDevice, tasks: seq<Task>)
    requires tz.Valid() && dev.Valid()
    modifies tz, dev, dev.finger
    ensures tz.Valid() && dev.Valid() && HandOver(tz.log) && old(tz.log) <= tz.log
  {
    for n := 0 to |tasks|
      invariant tz.Valid() && dev.Valid() && old(tz.log) <= tz.log
    {
      RunOne(tz, dev, tasks[n]);
    }
  }

  method RunOne(tz: TrustZone, dev: FingerprintDevice, task: Task)
    requires tz.Valid() && dev.Valid()
    modifies tz, dev, dev.finger
    ensures tz.Valid() && dev.Valid() && old(tz.log) <= tz.log
  {
    hide tz.Valid;
    var ret;
    ghost var done;
    ret, done := tz.Init(task.loaded, task.bandwidth);
    if ret != 0 {
      return;
    }
    match task.job
    case Nothing =>
      ghost var fetched, answer := tz.Uninit();
    case OpenAuthSession =>
      ghost var answer, fetched;
      ret, answer := tz.StartAuthSession();
      fetched, answer := tz.Uninit();
    case CloseAuthSession =>
      ghost var answer, fetched;
      ret, answer := tz.StopAuthSession();
      fetched, answer := tz.Uninit();
    case RunAuthentication(readings) =>
      tz.readings := readings;
      RunAuthenticationWorker(tz, dev);
    case RunEnrolment(readings, inserted) =>
      tz.readings := readings;
      RunEnrolmentWorker(tz, dev, inserted);
  }

  method RunAuthenticationWorker(tz: TrustZone, dev: FingerprintDevice)
    requires tz.Valid() && dev.Valid()
    modifies tz, dev, dev.finger
    ensures tz.Valid() && dev.Valid() && old(tz.log) <= tz.log
  {
    tz.BeginWorker(Authentication);
    ghost var fid, k, packed, seen := Authenticate(tz, dev);
  }

  /** fingerprint_enroll refuses when no slot is free. */
  method RunEnrolmentWorker(tz: TrustZone, dev: FingerprintDevice, inserted: bool)
    requires tz.Valid() && dev.Valid()
    modifies tz, dev, dev.finger
    ensures tz.Valid() && dev.Valid() && old(tz.log) <= tz.log
  {
    var idx := FindFree(dev.finger);
    if idx <= MAX_NUM_FINGERS {
      tz.BeginWorker(Enrolment);
      assert 1 <= idx && !dev.finger[..][idx].exist;
      ghost var i, images, finish, k := EnrollWorker.Enroll(tz, dev, inserted);
    }
  }
}
