/**
 The journal of one run: every command with its answer, and every access to the shared words.
 What the HAL carries from one start of the app to the next (auth token, session token and
 calibration data) is read off the journal here.
 */
module Journal {
  import opened Words
  import opened Commands
  import opened Protocol
  import opened Session

  const ANSWER_DATA: nat := BUFFER_LENGTH - 8

  /** What memset leaves. */
  function Zeroed(length: nat): (bytes: seq<Byte>)
    ensures |bytes| == length
  {
    seq(length, _ => 0)
  }

  /** The return value of QSEECom_send_cmd, and the result and data fields it leaves in the reply. */
  datatype Response = Response(ret: int, result: int, data: seq<Byte>)

  type Answer = r: Response | |r.data| == ANSWER_DATA witness Response(0, 0, Zeroed(ANSWER_DATA))

  /** data[k] of a reply: a signed little-endian 32-bit integer. */
  function Field(answer: Answer, k: nat): int
    requires 4 * k + 4 <= ANSWER_DATA
  {
    var n: int := answer.data[4 * k] as int + 0x100 * answer.data[4 * k + 1] as int
      + 0x1_0000 * answer.data[4 * k + 2] as int + 0x100_0000 * answer.data[4 * k + 3] as int;
    if n < 0x8000_0000 then n else n - 0x1_0000_0000
  }

  predicate IsAccepted(answer: Answer) {
    answer.ret == 0 && answer.result == 0
  }

  /** What memcpy takes from &resp->data[2]. */
  function Copied(answer: Answer, length: nat): (bytes: seq<Byte>)
    requires 8 + length <= ANSWER_DATA
    ensures |bytes| == length
  {
    answer.data[8..8 + length]
  }

  /** What is copied starts at the field data[2]: each four bytes of it are a field, little-endian and signed. */
  lemma CopiedFields(answer: Answer, length: nat, k: nat)
    requires 8 + length <= ANSWER_DATA && 4 * k + 4 <= length
    ensures var bytes: seq<int> := Copied(answer, length);
      var n := bytes[4 * k] + 0x100 * bytes[4 * k + 1] + 0x1_0000 * bytes[4 * k + 2] + 0x100_0000 * bytes[4 * k + 3];
      -0x8000_0000 <= Field(answer, 2 + k) < 0x8000_0000
        && (Field(answer, 2 + k) == n || Field(answer, 2 + k) == n - 0x1_0000_0000)
  {
  }

  /** The length of the calibration data in a reply, as the code computes it. */
  function BlobLength(answer: Answer): int {
    Field(answer, 3) + 0xf
  }

  predicate BlobFits(answer: Answer) {
    0 <= BlobLength(answer) <= CALIBRATE_DATA_MAX_LENGTH
  }

  function Blob(answer: Answer): seq<Byte> {
    if BlobFits(answer) then Copied(answer, BlobLength(answer)) else []
  }

  /**
   An access to something shared.  For a command: the len field, the reply word data[0] that was
   preset, and the bytes copied into the command.
   */
  datatype Event =
    | Sent(command: Command, len: nat, want: nat, body: seq<Byte>, answer: Answer)
    | Saw(value: WorkerState)
    | Put(value: WorkerState)
    | Locked(lock: Lock)
    | Unlocked(lock: Lock)
    | SawSignal(flag: bool)
    | SetSignal(flag: bool)
    | Waited
    | Woke
    | Tested(bit: bool)
    | Signalled
    | Spawned(bit: bool)
    | SawTimer(timer: Option<nat>)
    | Joined(thread: nat)
    | DroppedTimer

  // ----- what is carried over

  function NoToken(): seq<Byte> { Zeroed(AUTH_TOKEN_LENGTH) }

  function NoSessionToken(): seq<Byte> { Zeroed(AUTH_SESSION_TOKEN_LENGTH) }

  /** The second GetAuthToken of a pair, when the app reports success; `ret` is not looked at. */
  predicate GivesToken(e: Event) {
    e.Sent? && e.command == GetAuthToken && e.want == 0x80 && e.answer.result == 0
  }

  /** A reply whose calibration data is kept. */
  predicate GivesBlob(e: Event) {
    e.Sent? && IsAccepted(e.answer) && (e.command == UpdateCalData || (e.command == DeviceCalibrate && e.body == []))
  }

  /** A command after which the state of the auth session is a new one. */
  predicate SetsSession(e: Event) {
    e.Sent? && (e.command == AuthSessionEnd || (e.command == AuthSessionBegin && IsAccepted(e.answer)))
  }

  function Token(log: seq<Event>): (token: seq<Byte>)
    ensures |token| == AUTH_TOKEN_LENGTH
  {
    if log == [] then NoToken()
    else if GivesToken(log[|log| - 1]) then Copied(log[|log| - 1].answer, AUTH_TOKEN_LENGTH)
    else Token(log[..|log| - 1])
  }

  function Calibration(log: seq<Event>): (blob: seq<Byte>)
    ensures |blob| <= CALIBRATE_DATA_MAX_LENGTH
  {
    if log == [] then []
    else if GivesBlob(log[|log| - 1]) then Blob(log[|log| - 1].answer)
    else Calibration(log[..|log| - 1])
  }

  function IsOpen(log: seq<Event>): bool {
    if log == [] then false
    else if SetsSession(log[|log| - 1]) then log[|log| - 1].command == AuthSessionBegin
    else IsOpen(log[..|log| - 1])
  }

  function SessionToken(log: seq<Event>): (token: seq<Byte>)
    ensures |token| == AUTH_SESSION_TOKEN_LENGTH
  {
    if log == [] then NoSessionToken()
    else if SetsSession(log[|log| - 1]) then
      if log[|log| - 1].command == AuthSessionBegin then Copied(log[|log| - 1].answer, AUTH_SESSION_TOKEN_LENGTH)
      else NoSessionToken()
    else SessionToken(log[..|log| - 1])
  }

  lemma Appended(log: seq<Event>, e: Event)
    ensures var log' := log + [e];
      && Token(log') == (if GivesToken(e) then Copied(e.answer, AUTH_TOKEN_LENGTH) else Token(log))
      && Calibration(log') == (if GivesBlob(e) then Blob(e.answer) else Calibration(log))
      && IsOpen(log') == (if SetsSession(e) then e.command == AuthSessionBegin else IsOpen(log))
      && SessionToken(log') ==
           (if !SetsSession(e) then SessionToken(log)
            else if e.command == AuthSessionBegin then Copied(e.answer, AUTH_SESSION_TOKEN_LENGTH)
            else NoSessionToken())
  {
    assert (log + [e])[..|log|] == log;
  }

  /** A command carries what the journal before it says it must. */
  ghost predicate CarriesOver(before: seq<Event>, e: Event) {
    e.Sent? ==>
      match e.command
      case EnterAuthSession => IsOpen(before) && e.body == Token(before) && e.len == AUTH_TOKEN_LENGTH
      case DeviceCalibrate => e.body == Calibration(before) && e.len == (if e.body == [] then 0x10 else |e.body|)
      case EnrollFinish | EnrollmentPasswordSet => e.body == SessionToken(before)
      case _ => true
  }

  ghost predicate HandOver(log: seq<Event>) {
    forall k | 0 <= k < |log| :: CarriesOver(log[..k], log[k])
  }

  lemma HandOverAppended(log: seq<Event>, e: Event)
    requires HandOver(log) && CarriesOver(log, e)
    ensures HandOver(log + [e])
  {
    var log' := log + [e];
    forall k | 0 <= k < |log'|
      ensures CarriesOver(log'[..k], log'[k])
    {
      assert log'[..k] == log[..k];
    }
  }

  // ----- the hand-over in terms of single events

  lemma {:induction false} TokenIsLatest(log: seq<Event>, j: nat)
    requires j < |log| && GivesToken(log[j]) && forall i | j < i < |log| :: !GivesToken(log[i])
    ensures Token(log) == Copied(log[j].answer, AUTH_TOKEN_LENGTH)
  {
    if j < |log| - 1 {
      TokenIsLatest(log[..|log| - 1], j);
    }
  }

  lemma {:induction false} CalibrationIsLatest(log: seq<Event>, j: nat)
    requires j < |log| && GivesBlob(log[j]) && forall i | j < i < |log| :: !GivesBlob(log[i])
    ensures Calibration(log) == Blob(log[j].answer)
  {
    if j < |log| - 1 {
      CalibrationIsLatest(log[..|log| - 1], j);
    }
  }

  lemma {:induction false} NothingYet(log: seq<Event>)
    ensures (forall i | 0 <= i < |log| :: !GivesToken(log[i])) ==> Token(log) == NoToken()
    ensures (forall i | 0 <= i < |log| :: !GivesBlob(log[i])) ==> Calibration(log) == []
  {
    if log != [] {
      NothingYet(log[..|log| - 1]);
    }
  }

  /**
   EnterAuthSession presents the token of the most recent GetAuthToken that was the second of a pair
   and whose reply said success (whatever the call returned), or zeros.
   */
  lemma TokenPresented(log: seq<Event>, k: nat, j: nat)
    requires HandOver(log) && k < |log| && log[k].Sent? && log[k].command == EnterAuthSession && j <= k
    requires forall i | j <= i < k :: log[i].Sent? && log[i].command == GetAuthToken && log[i].want == 0x80 ==> log[i].answer.result != 0
    requires j > 0 ==>
      log[j - 1].Sent? && log[j - 1].command == GetAuthToken && log[j - 1].want == 0x80 && log[j - 1].answer.result == 0
    ensures j == 0 ==> |log[k].body| == AUTH_TOKEN_LENGTH && forall b | b in log[k].body :: b == 0
    ensures j > 0 ==> log[k].body == Copied(log[j - 1].answer, AUTH_TOKEN_LENGTH)
  {
    assert CarriesOver(log[..k], log[k]);
    if j == 0 {
      NothingYet(log[..k]);
    } else {
      TokenIsLatest(log[..k], j - 1);
    }
  }

  /**
   DeviceCalibrate carries the calibration data of the most recent accepted UpdateCalData, or of an accepted
   calibration that was itself sent without data; when there is none it is sent without data.
   */
  lemma CalibrationPresented(log: seq<Event>, k: nat, j: nat)
    requires HandOver(log) && k < |log| && log[k].Sent? && log[k].command == DeviceCalibrate && j <= k
    requires forall i | j <= i < k ::
      (log[i].Sent? && (log[i].command == UpdateCalData || (log[i].command == DeviceCalibrate && log[i].body == [])))
        ==> log[i].answer.ret != 0 || log[i].answer.result != 0
    requires j > 0 ==>
      && log[j - 1].Sent? && log[j - 1].answer.ret == 0 && log[j - 1].answer.result == 0
      && (log[j - 1].command == UpdateCalData || (log[j - 1].command == DeviceCalibrate && log[j - 1].body == []))
    ensures j == 0 ==> log[k].body == []
    ensures j > 0 ==> var length := Field(log[j - 1].answer, 3) + 0xf;
      0 <= length <= CALIBRATE_DATA_MAX_LENGTH ==> log[k].body == Copied(log[j - 1].answer, length)
    ensures log[k].len == if log[k].body == [] then 0x10 else |log[k].body|
  {
    hide Field;
    assert CarriesOver(log[..k], log[k]);
    if j == 0 {
      NothingYet(log[..k]);
    } else {
      CalibrationIsLatest(log[..k], j - 1);
    }
  }

  /**
   EnrollFinish and EnrollmentPasswordSet carry the token of the auth session that is open, or zeros;
   and EnterAuthSession is sent only while one is open.  A session opens with an accepted
   AuthSessionBegin and is over with AuthSessionEnd, accepted or not.
   */
  lemma SessionPresented(log: seq<Event>, k: nat, j: nat)
    requires HandOver(log) && k < |log| && log[k].Sent? && j <= k
    requires forall i | j <= i < k :: log[i].Sent? ==>
      && log[i].command != AuthSessionEnd
      && (log[i].command == AuthSessionBegin ==> log[i].answer.ret != 0 || log[i].answer.result != 0)
    requires j > 0 ==>
      && log[j - 1].Sent? && (log[j - 1].command == AuthSessionBegin || log[j - 1].command == AuthSessionEnd)
      && (log[j - 1].command == AuthSessionBegin ==> log[j - 1].answer.ret == 0 && log[j - 1].answer.result == 0)
    ensures var begun := j > 0 && log[j - 1].command == AuthSessionBegin;
      && (log[k].command == EnterAuthSession ==> begun)
      && (log[k].command == EnrollFinish || log[k].command == EnrollmentPasswordSet ==>
            && |log[k].body| == AUTH_SESSION_TOKEN_LENGTH
            && (begun ==> log[k].body == Copied(log[j - 1].answer, AUTH_SESSION_TOKEN_LENGTH))
            && (!begun ==> forall b | b in log[k].body :: b == 0))
  {
    assert CarriesOver(log[..k], log[k]);
    SessionIsLatest(log[..k], j);
  }

  lemma {:induction false} SessionIsLatest(log: seq<Event>, j: nat)
    requires j <= |log| && (forall i | j <= i < |log| :: !SetsSession(log[i])) && (j > 0 ==> SetsSession(log[j - 1]))
    ensures var begun := j > 0 && log[j - 1].command == AuthSessionBegin;
      && (IsOpen(log) <==> begun)
      && SessionToken(log) == if begun then Copied(log[j - 1].answer, AUTH_SESSION_TOKEN_LENGTH) else NoSessionToken()
  {
    if j < |log| {
      SessionIsLatest(log[..|log| - 1], j);
    }
  }
}
