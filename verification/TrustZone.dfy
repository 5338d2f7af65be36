/**
 The trusted app's client: what fingerprint_tz.c keeps between commands, and the commands that
 start the app, hand the state over to it, and shut it down again.
 */
module TrustZone {
  import opened Words
  import opened Commands
  import opened Protocol
  import opened Session
  import opened Journal
  import opened WorkerTrace

  class TrustZone {
    var init: bool
    var authSessionOpened: bool
    var authToken: seq<Byte>
    var sessionToken: seq<Byte>
    var calibrateLen: nat
    var calibrateData: seq<Byte>

    /** What the coming readings of the state word, which other threads write, will find; IDLE after the last. */
    var readings: seq<WorkerState>

    /** Everything done so far; the running worker's part starts at `begun`, and it has come to `at`. */
    ghost var log: seq<Event>
    ghost var kind: Kind
    ghost var begun: nat
    ghost var at: Option<WorkerPc>

    ghost predicate Valid()
      reads this`log, this`kind, this`begun, this`at
      reads this`authToken, this`authSessionOpened, this`sessionToken, this`calibrateLen, this`calibrateData
    {
      && HandOver(log)
      && OnTrack()
      && authToken == Token(log)
      && authSessionOpened == IsOpen(log)
      && sessionToken == SessionToken(log)
      && calibrateLen <= CALIBRATE_DATA_MAX_LENGTH == |calibrateData|
      && calibrateData[..calibrateLen] == Calibration(log)
    }

    ghost predicate OnTrack()
      reads this`log, this`kind, this`begun, this`at
    {
      begun <= |log| && at == Follow(kind, log[begun..])
    }

    /** The memset of the whole record when the device is opened. */
    constructor ()
      ensures Valid() && !init && log == []
    {
      init, authSessionOpened := false, false;
      authToken, sessionToken := NoToken(), NoSessionToken();
      calibrateLen, calibrateData := 0, Zeroed(CALIBRATE_DATA_MAX_LENGTH);
      readings := [];
      log, kind, begun, at := [], Authentication, 0, Some(Begin);
    }

    /** A worker thread starts. */
    ghost method BeginWorker(kind: Kind)
      requires Valid()
      modifies this`kind, this`begun, this`at
      ensures Valid() && this.kind == kind && begun == |log| && at == Some(Begin)
    {
      this.kind, begun, at := kind, |log|, Some(Begin);
    }

    ghost method Record(e: Event)
      requires HandOver(log) && OnTrack() && CarriesOver(log, e)
      modifies this`log, this`at
      ensures log == old(log) + [e] && HandOver(log) && OnTrack() && at == Next(kind, old(at), e)
    {
      HandOverAppended(log, e);
      FollowAppended(kind, log[begun..], e);
      assert (log + [e])[begun..] == log[begun..] + [e];
      log, at := log + [e], Next(kind, at, e);
    }

    /** QSEECom_send_cmd: the app answers as it likes, but calibration data has a length in range. */
    method Call(command: Command, len: nat, want: nat, body: seq<Byte>) returns (answer: Answer)
      requires HandOver(log) && OnTrack()
      requires forall a :: CarriesOver(log, Sent(command, len, want, body, a))
      modifies this`log, this`at
      ensures var e := Sent(command, len, want, body, answer);
        log == old(log) + [e] && HandOver(log) && OnTrack() && at == Next(kind, old(at), e)
      ensures command == UpdateCalData || command == DeviceCalibrate ==> BlobFits(answer)
    {
      ghost var silence: Answer := Response(0, 0, Zeroed(ANSWER_DATA));
      assert BlobFits(silence);
      answer :| command == UpdateCalData || command == DeviceCalibrate ==> BlobFits(answer);
      Record(Sent(command, len, want, body, answer));
    }

    /** A command that changes nothing of what is carried over. */
    method Ask(command: Command, len: nat, want: nat, body: seq<Byte>) returns (answer: Answer)
      requires Valid() && IsPlain(command)
      requires command == EnrollFinish || command == EnrollmentPasswordSet ==> body == SessionToken(log)
      modifies this`log, this`at
      ensures Valid()
      ensures log == old(log) + [Sent(command, len, want, body, answer)]
      ensures at == Next(kind, old(at), Sent(command, len, want, body, answer))
    {
      hide Next, HandOver, OnTrack, Token, Calibration, IsOpen, SessionToken, Field;
      answer := Call(command, len, want, body);
      Appended(old(log), Sent(command, len, want, body, answer));
    }

    /** Anything but a command. */
    ghost method Note(e: Event)
      requires Valid() && !e.Sent?
      modifies this`log, this`at
      ensures Valid() && log == old(log) + [e] && at == Next(kind, old(at), e)
    {
      hide Next, HandOver, OnTrack, Token, Calibration, IsOpen, SessionToken, Field;
      Appended(log, e);
      Record(e);
    }

    /** get_tz_state. */
    method GetState() returns (state: WorkerState)
      requires Valid()
      modifies this`readings, this`log, this`at
      ensures Valid()
      ensures log == old(log) + [Saw(state)] && at == Next(kind, old(at), Saw(state))
      ensures if old(readings) == [] then state == Idle && readings == []
              else state == old(readings)[0] && readings == old(readings)[1..]
    {
      hide Next, HandOver, OnTrack, Token, Calibration, IsOpen, SessionToken, Field;
      state := Idle;
      if readings != [] {
        state, readings := readings[0], readings[1..];
      }
      Note(Saw(state));
    }

    /** vcs_update_cal_data. */
    method UpdateCalibration() returns (ret: int, ghost answer: Answer)
      requires Valid()
      modifies this`log, this`at, this`calibrateLen, this`calibrateData
      ensures Valid()
      ensures var e := Sent(UpdateCalData, 0, CALIBRATE_DATA_MAX_LENGTH, [], answer);
        log == old(log) + [e] && at == Next(kind, old(at), e)
      ensures ret == answer.ret && BlobFits(answer)
      ensures if answer.ret == 0 && answer.result == 0 then Keeps(answer)
              else calibrateLen == old(calibrateLen) && calibrateData == old(calibrateData)
    {
      hide Next, HandOver, OnTrack, Token, Calibration, IsOpen, SessionToken, Field;
      var resp := Call(UpdateCalData, 0, CALIBRATE_DATA_MAX_LENGTH, []);
      answer := resp;
      Appended(old(log), Sent(UpdateCalData, 0, CALIBRATE_DATA_MAX_LENGTH, [], resp));
      ret := resp.ret;
      if IsAccepted(resp) {
        KeepCalibration(resp);
      }
    }

    /** The calibration data is what this reply brought: its length is in data[3], the bytes start at data[2]. */
    ghost predicate Keeps(answer: Answer)
      reads this`calibrateLen, this`calibrateData
    {
      && calibrateLen == Field(answer, 3) + 0xf && calibrateLen <= |calibrateData| && 8 + calibrateLen <= ANSWER_DATA
      && calibrateData[..calibrateLen] == answer.data[8..8 + calibrateLen]
    }

    /** The memcpy of a reply's calibration data: the rest of the buffer stays as it was. */
    method KeepCalibration(resp: Answer)
      requires BlobFits(resp) && calibrateLen <= CALIBRATE_DATA_MAX_LENGTH == |calibrateData|
      modifies this`calibrateLen, this`calibrateData
      ensures calibrateLen == |Blob(resp)| && |calibrateData| == CALIBRATE_DATA_MAX_LENGTH
      ensures calibrateData == Blob(resp) + old(calibrateData)[calibrateLen..] && Keeps(resp)
    {
      calibrateLen := Field(resp, 3) + 0xf;
      calibrateData := Copied(resp, calibrateLen) + calibrateData[calibrateLen..];
    }

    /** vcs_update_auth_token: asks twice, and only the second reply counts. */
    method UpdateAuthToken() returns (ret: int, ghost asked: seq<Event>)
      requires Valid()
      modifies this`log, this`at, this`authToken
      ensures Valid()
      ensures log == old(log) + asked && AsksForToken(asked)
      ensures at == Next(kind, Next(kind, old(at), asked[0]), asked[1])
      ensures ret == if asked[1].answer.result != 0 then asked[1].answer.result else asked[1].answer.ret
      ensures authToken ==
        if asked[1].answer.result == 0 then Copied(asked[1].answer, AUTH_TOKEN_LENGTH) else old(authToken)
    {
      hide Next, HandOver, OnTrack, Token, Calibration, IsOpen, SessionToken, Field;
      var resp := Call(GetAuthToken, 0, 0, []);
      asked := [Sent(GetAuthToken, 0, 0, [], resp)];
      Appended(old(log), asked[0]);
      ghost var log1 := log;
      resp := Call(GetAuthToken, 0, 0x80, []);
      asked := asked + [Sent(GetAuthToken, 0, 0x80, [], resp)];
      Appended(log1, asked[1]);
      if resp.result != 0 {
        ret := resp.result;
        return;
      }
      authToken := Copied(resp, AUTH_TOKEN_LENGTH);
      ret := resp.ret;
    }

    /** vcs_start_auth_session. */
    method StartAuthSession() returns (ret: int, ghost answer: Answer)
      requires Valid()
      modifies this`log, this`at, this`sessionToken, this`authSessionOpened
      ensures Valid()
      ensures log == old(log) + [Sent(AuthSessionBegin, 0, AUTH_SESSION_TOKEN_LENGTH, [], answer)]
      ensures ret == answer.ret
      ensures if answer.ret == 0 && answer.result == 0
              then authSessionOpened && sessionToken == Copied(answer, AUTH_SESSION_TOKEN_LENGTH)
              else authSessionOpened == old(authSessionOpened) && sessionToken == old(sessionToken)
    {
      hide Next, HandOver, OnTrack, Token, Calibration, IsOpen, SessionToken, Field;
      var resp := Call(AuthSessionBegin, 0, AUTH_SESSION_TOKEN_LENGTH, []);
      answer := resp;
      Appended(old(log), Sent(AuthSessionBegin, 0, AUTH_SESSION_TOKEN_LENGTH, [], resp));
      ret := resp.ret;
      if IsAccepted(resp) {
        sessionToken := Copied(resp, AUTH_SESSION_TOKEN_LENGTH);
        authSessionOpened := true;
      }
    }

    /** vcs_stop_auth_session: the session is forgotten even when the app refuses. */
    method StopAuthSession() returns (ret: int, ghost answer: Answer)
      requires Valid()
      modifies this`log, this`at, this`sessionToken, this`authSessionOpened
      ensures Valid()
      ensures log == old(log) + [Sent(AuthSessionEnd, 0, 0, [], answer)] && ret == answer.ret
      ensures !authSessionOpened && |sessionToken| == AUTH_SESSION_TOKEN_LENGTH && forall b | b in sessionToken :: b == 0
    {
      hide Next, HandOver, OnTrack, Token, Calibration, IsOpen, SessionToken, Field;
      var resp := Call(AuthSessionEnd, 0, 0, []);
      answer := resp;
      Appended(old(log), Sent(AuthSessionEnd, 0, 0, [], resp));
      ret := resp.ret;
      sessionToken := NoSessionToken();
      authSessionOpened := false;
    }

    /** vcs_resume. */
    method Resume() returns (ret: int, ghost done: seq<Event>)
      requires Valid()
      modifies this`log, this`at, this`calibrateLen, this`calibrateData
      ensures Valid() && log == old(log) + done
      ensures Performs(StartPlan(authSessionOpened), done)
      ensures var last := done[|done| - 1];
        ret == if last.command == EnterAuthSession then last.answer.result else last.answer.ret
      ensures ret == 0 <==> Started(authSessionOpened, done) || FailsUnnoticed(done)
    {
      hide Next, Valid, Performs, WentThrough, Started, FailsUnnoticed, StartPlan, Greeting, IsAccepted;
      var ok;
      ok, ret, done := Greet();
      if ok {
        ghost var rest;
        ret, rest := StartDevice();
        PerformsThen(Greeting(authSessionOpened), DEVICE_PLAN, done, rest);
        assert (done + rest)[|done + rest| - 1] == rest[|rest| - 1];
        done := done + rest;
      }
      ZeroReturnedExactly(authSessionOpened, done, ret);
    }

    /** The first half of vcs_resume. */
    method Greet() returns (ok: bool, ret: int, ghost done: seq<Event>)
      requires Valid()
      modifies this`log, this`at
      ensures Valid() && log == old(log) + done && done != []
      ensures ok ==> WentThrough(Greeting(authSessionOpened), done)
      ensures !ok ==> Performs(StartPlan(authSessionOpened), done)
      ensures !ok ==> var last := done[|done| - 1];
        ret == if last.command == EnterAuthSession then last.answer.result else last.answer.ret
    {
      hide Next, Valid, Performs;
      var resp := Ask(Initialize, 4, 0, []);
      done := [Sent(Initialize, 4, 0, [], resp)];
      ok, ret := IsAccepted(resp), resp.ret;
      if !ok {
        PerformsFirst(StartPlan(authSessionOpened), [], done[0]);
        assert done == [] + [done[0]];
        return;
      }
      if authSessionOpened {
        resp := Present();
        ghost var e := Sent(EnterAuthSession, AUTH_TOKEN_LENGTH, 0, authToken, resp);
        ok, ret := IsAccepted(resp), resp.result;
        if !ok {
          PerformsFirst(StartPlan(authSessionOpened), done, e);
        }
        done := done + [e];
      }
    }

    /** The second half of vcs_resume. */
    method StartDevice() returns (ret: int, ghost done: seq<Event>)
      requires Valid()
      modifies this`log, this`at, this`calibrateLen, this`calibrateData
      ensures Valid() && log == old(log) + done
      ensures done != [] && Performs(DEVICE_PLAN, done) && ret == done[|done| - 1].answer.ret
        && done[|done| - 1].command in DEVICE_PLAN
    {
      hide Next, Valid;
      var resp := Ask(DeviceInitialize, 0, 0, []);
      done := [Sent(DeviceInitialize, 0, 0, [], resp)];
      if !IsAccepted(resp) {
        ret := resp.ret;
        return;
      }
      ghost var e;
      ret, e := Calibrate();
      done := done + [e];
    }

    /** The command EnterAuthSession. */
    method Present() returns (resp: Answer)
      requires Valid() && authSessionOpened
      modifies this`log, this`at
      ensures Valid() && log == old(log) + [Sent(EnterAuthSession, AUTH_TOKEN_LENGTH, 0, authToken, resp)]
    {
      hide Next, HandOver, OnTrack, Token, Calibration, IsOpen, SessionToken, Field;
      resp := Call(EnterAuthSession, AUTH_TOKEN_LENGTH, 0, authToken);
      Appended(old(log), Sent(EnterAuthSession, AUTH_TOKEN_LENGTH, 0, authToken, resp));
    }

    /** The command DeviceCalibrate, with the calibration data kept so far, if any. */
    method Calibrate() returns (ret: int, ghost e: Event)
      requires Valid()
      modifies this`log, this`at, this`calibrateLen, this`calibrateData
      ensures Valid() && log == old(log) + [e] && e.Sent? && e.command == DeviceCalibrate && ret == e.answer.ret
      ensures e.body == old(calibrateData)[..old(calibrateLen)]
      ensures BlobFits(e.answer)
      ensures if e.answer.ret == 0 && e.answer.result == 0 && old(calibrateLen) == 0 then Keeps(e.answer)
              else calibrateLen == old(calibrateLen) && calibrateData == old(calibrateData)
    {
      hide Next, HandOver, OnTrack, Token, Calibration, IsOpen, SessionToken, Field;
      var body := calibrateData[..calibrateLen];
      var len := if calibrateLen != 0 then calibrateLen else 0x10;
      var resp := Call(DeviceCalibrate, len, CALIBRATE_DATA_MAX_LENGTH, body);
      e := Sent(DeviceCalibrate, len, CALIBRATE_DATA_MAX_LENGTH, body, resp);
      Appended(old(log), e);
      ret := resp.ret;
      if IsAccepted(resp) && calibrateLen == 0 {
        KeepCalibration(resp);
      }
    }

    /** vcs_init; the two outcomes say whether the app could be loaded and its bandwidth set. */
    method Init(loaded: bool, bandwidth: bool) returns (ret: int, ghost done: seq<Event>)
      requires Valid()
      modifies this`init, this`log, this`at, this`calibrateLen, this`calibrateData
      ensures Valid() && log == old(log) + done
      ensures init <==> old(init) || (loaded && bandwidth)
      ensures init && !old(init) ==> Performs(StartPlan(authSessionOpened), done)
      ensures init && !old(init) ==> var last := done[|done| - 1];
        ret == if last.command == EnterAuthSession then last.answer.result else last.answer.ret
      ensures init && !old(init) ==> (ret == 0 <==> Started(authSessionOpened, done) || FailsUnnoticed(done))
      ensures !init || old(init) ==> done == [] && ret == if init then 0 else -1
    {
      ret, done := 0, [];
      if init {
        return;
      }
      if !loaded {
        ret := -1;
        return;
      }
      if !bandwidth {
        ret := -1;
        return;
      }
      init := true;
      ret, done := Resume();
    }

    /** vcs_uninit. */
    method Uninit() returns (ghost fetched: seq<Event>, ghost answer: Answer)
      requires Valid()
      modifies this`init, this`log, this`at, this`authToken
      ensures Valid() && !init && Fetches(old(authSessionOpened), fetched)
      ensures authToken == (if old(authSessionOpened) && fetched[2].answer.result == 0
                            then Copied(fetched[2].answer, AUTH_TOKEN_LENGTH) else old(authToken))
      ensures log == old(log) + fetched + [Sent(Uninitialize, 0, 0, [], answer), Put(Idle)]
      ensures old(at) == Some(Closing) ==> at == Some(AfterClosing(kind))
    {
      hide Valid, Next, Fetches;
      fetched := FetchToken();
      var resp := Ask(Uninitialize, 0, 0, []);
      answer := resp;
      CloseEnd(kind, Sent(Uninitialize, 0, 0, [], resp));
      init := false;
      Note(Put(Idle));
    }

    /** The beginning of vcs_uninit. */
    method FetchToken() returns (ghost fetched: seq<Event>)
      requires Valid()
      modifies this`log, this`at, this`authToken
      ensures Valid() && log == old(log) + fetched && Fetches(authSessionOpened, fetched)
      ensures authToken == (if authSessionOpened && fetched[2].answer.result == 0
                            then Copied(fetched[2].answer, AUTH_TOKEN_LENGTH) else old(authToken))
      ensures old(at) == Some(Closing) ==> at == Some(WorkerPc.Uninit)
    {
      hide Valid, Next;
      CloseTested(kind, authSessionOpened);
      Note(Tested(authSessionOpened));
      fetched := [Tested(authSessionOpened)];
      if authSessionOpened {
        var ret;
        ghost var asked;
        ret, asked := UpdateAuthToken();
        CloseTokens(kind, asked[0], asked[1]);
        fetched := fetched + asked;
      }
    }
  }

  predicate IsPlain(command: Command) {
    && command != GetAuthToken && command != AuthSessionBegin && command != AuthSessionEnd
    && command != UpdateCalData && command != DeviceCalibrate && command != EnterAuthSession
  }

  ghost predicate AsksForToken(asked: seq<Event>) {
    && |asked| == 2 && asked[0].Sent? && asked[1].Sent?
    && asked[0].command == GetAuthToken && asked[0].want == 0
    && asked[1].command == GetAuthToken && asked[1].want == 0x80
  }

  /** The token is fetched, before the app ends, exactly when there is an auth session. */
  ghost predicate Fetches(session: bool, fetched: seq<Event>) {
    && |fetched| == (if session then 3 else 1) && fetched[0] == Tested(session)
    && (session ==> AsksForToken(fetched[1..]) && fetched[1].Sent? && fetched[2].Sent?)
  }

  /** The commands of vcs_resume, with or without an auth session. */
  function StartPlan(session: bool): (plan: seq<Command>)
    ensures plan == Greeting(session) + DEVICE_PLAN
  {
    if session then [Initialize, EnterAuthSession, DeviceInitialize, DeviceCalibrate]
    else [Initialize, DeviceInitialize, DeviceCalibrate]
  }

  const DEVICE_PLAN: seq<Command> := [DeviceInitialize, DeviceCalibrate]

  /** All commands of a plan are accepted. */
  ghost predicate WentThrough(plan: seq<Command>, done: seq<Event>) {
    |done| == |plan| && forall i | 0 <= i < |done| :: done[i].Sent? && done[i].command == plan[i] && IsAccepted(done[i].answer)
  }

  function Greeting(session: bool): seq<Command> {
    [Initialize] + (if session then [EnterAuthSession] else [])
  }

  /** A first part of the plan that went through, and the command that did not. */
  lemma PerformsFirst(plan: seq<Command>, first: seq<Event>, last: Event)
    requires |first| < |plan| && (forall i | 0 <= i < |first| :: first[i].Sent? && first[i].command == plan[i] && IsAccepted(first[i].answer))
    requires last.Sent? && last.command == plan[|first|] && !IsAccepted(last.answer)
    ensures Performs(plan, first + [last])
  {
  }

  lemma PerformsThen(plan: seq<Command>, more: seq<Command>, first: seq<Event>, rest: seq<Event>)
    requires WentThrough(plan, first) && Performs(more, rest)
    ensures Performs(plan + more, first + rest)
  {
  }

  /** The commands of the plan are sent in order, up to the first that is not accepted. */
  ghost predicate Performs(plan: seq<Command>, done: seq<Event>) {
    && 1 <= |done| <= |plan|
    && (forall i | 0 <= i < |done| :: done[i].Sent? && done[i].command == plan[i])
    && (forall i | 0 <= i < |done| - 1 :: IsAccepted(done[i].answer))
    && (|done| < |plan| ==> !IsAccepted(done[|done| - 1].answer))
  }

  /** Every command of the start was sent, and none was refused. */
  ghost predicate Started(session: bool, done: seq<Event>) {
    && |done| == (if session then 4 else 3)
    && forall i | 0 <= i < |done| :: done[i].Sent? && done[i].answer.ret == 0 && done[i].answer.result == 0
  }

  /**
   The last command was refused and its caller is not told: the app alone refused it, when it is not
   EnterAuthSession; the call failed but the result field holds 0, when it is.
   */
  ghost predicate FailsUnnoticed(done: seq<Event>) {
    && done != [] && done[|done| - 1].Sent?
    && var last := done[|done| - 1];
       if last.command == EnterAuthSession then last.answer.ret != 0 && last.answer.result == 0
       else last.answer.ret == 0 && last.answer.result != 0
  }

  /**
   A start returns 0 exactly when it went through or failed unnoticed: after the value 0 a worker is
   created even though the app may have refused its initialisation.
   */
  lemma ZeroReturnedExactly(session: bool, done: seq<Event>, ret: int)
    requires Performs(StartPlan(session), done)
    requires var last := done[|done| - 1];
      ret == if last.command == EnterAuthSession then last.answer.result else last.answer.ret
    ensures ret == 0 <==> Started(session, done) || FailsUnnoticed(done)
    ensures !(Started(session, done) && FailsUnnoticed(done))
  {
    var last := done[|done| - 1];
    if |done| == |StartPlan(session)| {
      assert last.command == DeviceCalibrate;
      assert Started(session, done) <==> IsAccepted(last.answer);
    }
  }

  /** Such a start: the app refuses Initialize, and nothing more is sent. */
  lemma RefusalGoesUnnoticed() returns (done: seq<Event>)
    ensures Performs(StartPlan(false), done) && FailsUnnoticed(done) && |done| == 1
    ensures done[0].command == Initialize && done[0].answer.result == 1
  {
    done := [Sent(Initialize, 4, 0, [], Response(0, 1, Zeroed(ANSWER_DATA)))];
  }
}
