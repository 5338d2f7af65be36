# Fingerprint HAL: model and proofs

This project models the two hard parts of the fingerprint HAL and proves what they are for.

**The SHA-1 engine** (`hash.c`). `Sha1Spec` is SHA-1 as sections 4.1.1, 4.2.1, 5.1.1, 5.3.1 and
6.1.2 of FIPS 180-4 define it, over byte sequences and 32-bit words; bit operations are defined
digit by digit in `Words`. `Sha1Engine.Sha1Context` is the C record with its arrays, counters and
flags, and its methods have the loops of the C. `Sha1Stream` is what a caller can observe, and the
theorems about sequences of calls are proved there. `WordBytes`, `WordBits` and `Sha1Machine` show that
the specification on numbers is that of a machine with 32-bit words, and `Sha1Example` proves the
published hash of "abc", in which every constant, rotation and function takes part.

**The session machine** (`fingerprint_tz.c`, `fingerprint.c`). `Session` is a transition system:
worker threads, HAL callers, the timeout thread and the data-ready handler each have a program
counter; both mutexes, the condition variable (with spurious wake-ups) and the signal flag are
explicit; replies of the secure app are arbitrary inputs. `Session.WorkerNext` is the control flow
of `fingerprint_tz.c:88-428` and `fingerprint_tz.c:686-706`, `StarterNext` that of
`fingerprint.c:426-490` and `fingerprint_tz.c:459-511`, `CancellerNext` that of
`fingerprint.c:517-546`, `TimerNext` that of `fingerprint_tz.c:430-457` and `HandlerNext` that of
`fingerprint.c:89-106`, one shared access a step. `SessionSafety`, `SessionProgress`,
`SessionWakeUp`, `SessionEnding`, `SessionReplies`, `SessionAlone`, `SessionAborts` and
`SessionTwoAborts` hold its theorems; `SessionRuns` and `SessionMoves` are what runs are built
from, and `SessionExamples` has the runs.

**The same threads as code.** `TrustZone`, `Capture`, `AuthenticateWorker`, `EnrollWorker` and
`HalCalls` are the C functions in imperative form. Each access to something shared is recorded as
an event, and each method is proved to follow the program counters of `Session`
(`WorkerTrace.Follow`, `HalCalls.Course`), so what the code does the machine can do; for the
workers `SessionTraces.WorkerFollowsTrace` is the other direction. `WorkerScripts`,
`AuthenticateScript` and `AfterAbort` prove what every such trace looks like. A thread's readings
of the state word are a finite sequence chosen by the environment, followed by IDLE: this gives
every finite run, and every beginning of an infinite one. `HalSessions` runs any list of sessions.

**Slots and store.** `Slots`, `Store` and `Device` model the slot table, the packing of templates
into the match command, the database tables behind the slots, and removal; the slot array is a
field of the device here, not of the app's client. `Commands` holds the layout of the shared
buffer, `Notices` what the framework is told when the app refuses something, and `Journal` what is handed over from one start of the app to the next.

Some things that one would expect of the code are false. For each of these there is the exact
condition and a run or an input that shows it: a cancel prevails (`CancelPrevailsExactly`,
`CancelCanBeLost`); a cancel ends in IDLE (`EndsSurelyExactly` for every reply and
`EndsAloneExactly` for some, `RepliesDecide` and `HopelessCancel`); one CANCEL gets one
CaptureAbort (`OneAnswerExactly`, `MoreAbortsThanCancels`); a cancelled worker stops
(`RevivedExactly`, `CancelledEnrolmentFinishes`); a signal leaves nobody asleep
(`SignalLeavesNone`, `SleeperLeftBehind`); a timeout ends the session of a sleeping worker
(`EndsAloneExactly`, `TimeoutHangs`); EnrollFinish needs a finished countdown (`FinishCause`,
`FinishWithoutImage`); a start that returns 0 went through (`ZeroReturnedExactly`,
`RefusalGoesUnnoticed`); a group switch empties the slots (`LastSlotAfterSwitch`, `SlotWithoutRow`).
For database errors there are `FailedDelete`, `FailedSave` and `FailureHidden`.

## Model

| member | source | states |
|---|---|---|
| Sha1Engine.CircularShiftIsRotL | fingerprint/hash.h:23 | the macro, with its mask and its two shifts, is the rotation of FIPS 180-4 |
| Sha1Engine.ChOrIsCh | fingerprint/hash.c:132 | the OR form of Ch equals the standard's XOR form on every three words |
| Sha1Engine.MajOrIsMaj | fingerprint/hash.c:150 | the OR form of Maj equals the standard's XOR form on every three words |
| Sha1Example.HashOfAbc | fingerprint/hash.c:54-205 | the SHA-1 of the bytes 61 62 63 is A9993E36 4706816A BA3E2571 7850C26C 9CD0D89D, as published: the initial value, the constants, the rotations and Ch, Parity and Maj taken together |
| Sha1Machine.ValueRound | fingerprint/hash.c:131-166 | one round on 32-bit machine words, with their and, xor, complement, wrapping sum and shifts, is one round of the specification, for all words |
| Sha1Machine.ValueRot | fingerprint/hash.h:23 | the shifts by 5 and 30 of a 32-bit machine, joined by or, are the rotations of the specification on numbers |
| WordBits.ValueOps | fingerprint/hash.c:132-150 | and and xor digit by digit on numbers are those of a 32-bit machine, for all words |
| WordBits.ValueSum | fingerprint/hash.c:132-134 | a sum of 32-bit words wraps modulo 2^32 |
| Sha1Engine.Sha1Context.ExpandBlock | fingerprint/hash.c:116-123 | the two loops fill W with the standard's message schedule of the buffered block |
| Sha1Engine.Sha1Context.ProcessMessageBlock | fingerprint/hash.c:109-173 | the four 20-step loops and the feed-forward compute the standard's 80-round compression of the old digest and the block |
| Sha1Engine.Sha1Context.Reset | fingerprint/hash.c:54-67 | from any state of the fields the context is as fresh, with no bytes taken, both flags clear and the five literal words of section 5.3.1 in the digest |
| Sha1Engine.Sha1Context.Input | fingerprint/hash.c:82-107 | the context takes exactly the bytes, or up to the limit of the counter, or is corrupted by a late call, as the stream model says |
| Sha1Engine.Sha1Context.InputByte | fingerprint/hash.c:90-106 | one byte is taken; the buffer index stays in 0..63 between calls and the digest covers exactly the whole blocks |
| Sha1Engine.Sha1Context.CountByte | fingerprint/hash.c:93-100 | the two halves hold the bit count modulo 2^64, and Corrupted is set exactly when the count reaches 2^64 |
| Sha1Engine.Sha1Context.PadMessage | fingerprint/hash.c:175-195 | the digest becomes the SHA-1 of all bytes taken, after floor((n+8)/64)+1 block computations in total |
| Sha1Engine.Sha1Context.WriteLength | fingerprint/hash.c:185-192 | the last eight bytes of the block are the 64-bit big-endian bit length |
| Sha1Engine.OneBlockEnding | fingerprint/hash.c:181-194 | a tail of at most 55 bytes, 0x80, zeros and the length, compressed once, complete the hash |
| Sha1Engine.TwoBlockEnding | fingerprint/hash.c:176-194 | a longer tail needs two blocks, laid out as the code lays them out, and these complete the hash |
| Sha1Engine.CounterBytes | fingerprint/hash.c:185-192 | the shifted and masked halves of the counter are the length field of the standard |
| Sha1Engine.FieldReadsBack | fingerprint/hash.c:185-192 | the length field is the number to the base 256, most significant digit first |
| Sha1Engine.Sha1Context.Result | fingerprint/hash.c:70-79 | fails exactly on a corrupted context, finishes once, and leaves the digest alone when called again |
| Sha1Engine.Sha1Context.Hash | fingerprint/hash.c:197-205 | for every length that fits an int the call returns 0 and the digest is the SHA-1 of the bytes, whatever the context held |
| Sha1Engine.Sha1Context.ConvertHashToNumber | fingerprint/hash.c:30-34 | 2^32 times the first word of the digest plus the second: a number below 2^64 whose eight bytes, most significant first, are the first eight of the digest |
| Sha1Engine.NumberFromBytes | fingerprint/hash.c:30-34 | those bytes determine the number, so digests with different leading bytes give different numbers |
| Sha1Engine.Sha1Context.HashFile | fingerprint/hash.c:36-47 | 1 without a file, else the leading bits of the SHA-1 of its first 300000 bytes |
| Sha1Engine.Sha1Context.HashString | fingerprint/hash.c:49-52 | the leading bits of the SHA-1 of the bytes before the first zero byte |
| Sha1Engine.StreamingRefinement | fingerprint/hash.c:54-107 | after a reset, any inputs and a result: corrupted exactly from 2^61 bytes on, and otherwise the digest is the SHA-1 of the concatenation and the block count is exact |
| Sha1Engine.HashChunks | fingerprint/hash.c:54-107 | reset, any pieces and a result on any context: it succeeds exactly below 2^61 bytes, and the digest is then the SHA-1 of the concatenation |
| Sha1Stream.ChunkingNeverMatters | fingerprint/hash.c:82-107 | any cutting of a message into inputs leads to the same state as one input |
| Sha1Stream.CorruptedExactly | fingerprint/hash.c:70-100 | over any calls after a reset, corrupted if and only if the bytes before the first result reach 2^61 or a non-empty input follows a result |
| Sha1Lemmas.ZeroCountIsLeast | fingerprint/hash.c:176-184 | the number of zero bytes is the least solution of the congruence in section 5.1.1 |
| Sha1Lemmas.DistinctMessagesDistinctBlocks | fingerprint/hash.c:175-195 | two different messages give two different sequences of padded blocks |
| Sha1Lemmas.UnroundInverse | fingerprint/hash.c:132-138 | one round is a bijection of the five variables, by an explicit inverse |
| Sha1Lemmas.RoundsInvertible | fingerprint/hash.c:131-166 | the rounds before the feed-forward are invertible in both directions for any schedule |
| Sha1Lemmas.UnscheduleCorrect | fingerprint/hash.c:123 | running the recurrence backwards from the last 16 words recovers every word of the schedule |
| Sha1Lemmas.ScheduleDeterminesBlock | fingerprint/hash.c:116-123 | the last 16 of the 80 words determine all 64 bytes of the block |
| SessionSafety.InvariantKept | fingerprint/fingerprint_tz.c:88-511 | every step of every thread keeps the lock ownership, the safety of committed starts and the accounting of aborts |
| SessionSafety.KindsNeverOverwrite | fingerprint/fingerprint_tz.c:459-489 | in every interleaving no write replaces ENROLL by SCAN or SCAN by ENROLL; a mark is written only over IDLE or CANCEL |
| SessionSafety.MutualExclusion | fingerprint/fingerprint_tz.c:136-152 | two threads never hold the same mutex, also across cond_wait |
| SessionSafety.AbortsBounded | fingerprint/fingerprint_tz.c:96-104 | no single worker sends more CaptureAbort commands than CANCEL was written |
| SessionAborts.AnswersSpend | fingerprint/fingerprint_tz.c:88-106 | a step makes at most one answer out of a CANCEL that no two workers can both answer, and a CANCEL waits for an answer only once it is written |
| SessionAborts.TotalAbortsBounded | fingerprint/fingerprint_tz.c:88-106 | over any run in which no standing CANCEL has two workers that can both answer it, all workers together send at most one CaptureAbort for each CANCEL written |
| SessionTwoAborts.BothAnswer | fingerprint/fingerprint_tz.c:88-152 | from every reachable state with two such workers there is a run that sends two CaptureAborts for the one CANCEL |
| SessionTwoAborts.OneAnswerExactly | fingerprint/fingerprint_tz.c:88-152 | from a state with a standing CANCEL at most one more CaptureAbort is sent in every run without another CANCEL if and only if no two workers can both still answer it; the condition reads only program counters, lock holders and the signal flag |
| SessionExamples.MoreAbortsThanCancels | fingerprint/fingerprint_tz.c:140-147 | a run from the start with two CANCELs and three CaptureAborts: the first worker answered in the guard, was revived by a new session, and answers again |
| SessionExamples.TwoLiveWorkers | fingerprint/fingerprint_tz.c:98-104 | a run to a state with two live workers |
| SessionProgress.StepSpends | fingerprint/fingerprint_tz.c:88-428 | the ranking function: under CANCEL each step of a live worker that does not write IDLE lowers it, and commands are paid from a budget |
| SessionProgress.CancelSpends | fingerprint/fingerprint_tz.c:88-428 | over any run that stays in CANCEL, steps taken plus ranking never grow, retries and re-captures included |
| SessionProgress.BoundedCancellation | fingerprint/fingerprint_tz.c:88-426 | in every schedule, once CANCEL stands and no start is about to overwrite it, a live worker sends at most 9 commands and takes fewer than 16 own steps before IDLE is written |
| SessionRuns.HolderReleases | fingerprint/fingerprint_tz.c:136-152 | under CANCEL every lock holder is enabled and each of its steps, for every input, brings it nearer to giving the lock up or to writing IDLE; at most six steps; a full-table enrolment and a start about to overwrite the CANCEL are the exceptions |
| SessionRuns.FreeLock | fingerprint/fingerprint_tz.c:136-152 | the holder alone frees the lock within its bound, or IDLE is written, and nobody else is changed but sleepers that a signal wakes |
| SessionReplies.IdleForEveryReply | fingerprint/fingerprint_tz.c:88-426 | for every sequence of inputs to the workers, app replies above all, a live worker that is not bound to sleep reaches IDLE, or somebody else before it, in a run of at most 7 times its ranking by threads already there and without spurious wake-ups; under a full-table enrolment this needs a point from which no reply leads to a notice |
| SessionReplies.ReportsExactly | fingerprint/fingerprint_tz.c:154-262 | the program counters from which some replies lead to a notice before IDLE is written, as an if-and-only-if |
| SessionReplies.IdleAfterSignal | fingerprint/fingerprint_tz.c:140-144 | a sleeping or dozing worker and a thread that will still signal reach IDLE together, for every sequence of replies |
| SessionAlone.EndsSurelyExactly | fingerprint/fingerprint_tz.c:88-426 | without new calls and spurious wake-ups a standing CANCEL can end for every sequence of replies, and whatever vcs_init returns, if and only if the state has a live worker not bound to sleep (under a full table: and from which no reply leads to a notice), a start past its vcs_init, or a sleeper with a signal on its way |
| SessionAlone.EndsAloneExactly | fingerprint/fingerprint_tz.c:88-426 | the same for some replies: there a live worker only must not already wait to send a notice under a full table, and a start may still be before its vcs_init |
| SessionExamples.RepliesDecide | fingerprint/fingerprint_tz.c:251-260 | a run to a CANCEL that one reply to a match ends and another leaves standing |
| SessionEnding.IdleIsWritten | fingerprint/fingerprint_tz.c:88-426 | for replies chosen to this end, every command failing but a match accepted, a live worker reaches IDLE even under a full table unless it already waits to send a notice; without spurious wake-ups if it is not bound to sleep |
| SessionEnding.EndingExactly | fingerprint/fingerprint_tz.c:88-426 | with help of any kind, that is with some replies, new calls and spurious wake-ups, IDLE can be written after a standing CANCEL if and only if a live worker is left that does not wait for the device lock of a full-table enrolment, or a start that can still create a worker |
| SessionEnding.HopelessRun | fingerprint/fingerprint.c:479-483 | otherwise the CANCEL stands in every continuation |
| SessionExamples.HopelessCancel | fingerprint/fingerprint.c:479-483 | a run to such a state: a worker about to report a rejected match, an enrolment on a full table, and a CANCEL that stands for ever |
| SessionProgress.CancelPrevailsExactly | fingerprint/fingerprint_tz.c:462-489 | the first state after CANCEL is IDLE in every continuation if and only if no start stands between its reading of IDLE and its write |
| SessionExamples.CancelCanBeLost | fingerprint/fingerprint.c:530-531 | a run in which a cancel aimed at an ended session meets a committed enrolment, which will overwrite it |
| SessionWakeUp.SignalFindsNobodyDozing | fingerprint/fingerprint.c:533-535 | at the moment of a signal no worker is between its test and its wait |
| SessionWakeUp.NobodyFallsAsleep | fingerprint/fingerprint_tz.c:140-144 | while the cancel stands, or the flag is up, no worker newly blocks |
| SessionWakeUp.SignalWakes | fingerprint/fingerprint.c:104 | a signal wakes exactly the waiter that it picks, if there is one |
| SessionWakeUp.NoLostWakeUp | fingerprint/fingerprint_tz.c:136-152 | after the signal of a cancel or of the handler, while its cause stands, the single sleeper is awake and nobody sleeps; with several sleepers, one fewer does |
| SessionWakeUp.SignalLeavesNone | fingerprint/fingerprint_tz.c:136-152 | after a signal nobody sleeps if and only if at most one worker did |
| SessionExamples.SleeperLeftBehind | fingerprint/fingerprint.c:530-545 | a run in which two workers sleep, a cancel writes, signals, sees IDLE and returns, and one worker sleeps on |
| SessionWakeUp.OnlySignalsWake | fingerprint/fingerprint_tz.c:445-453 | step by step: a sleeper wakes if and only if the step is a signal that picks it or its own spurious return; no step of the timeout thread does it |
| SessionExamples.TimeoutHangs | fingerprint/fingerprint_tz.c:445-453 | a run in which the timeout writes CANCEL past a sleeping worker and a cancel joins the polling timeout thread; the state has no signaller, so no run without a new call or a spurious wake-up reaches IDLE, and only the polling moves |
| SessionWakeUp.FlagStaysUp | fingerprint/fingerprint.c:100-105 | in every interleaving the flag that the handler raised is up until the handler's own next step |
| SessionWakeUp.HandlerSignalsFlag | fingerprint/fingerprint.c:100-105 | the handler's signal comes while the flag it raised is up, which is the cause that NoLostWakeUp needs |
| SessionProgress.NoSpaceNeverReturns | fingerprint/fingerprint.c:479-483 | an enrolment without a free slot holds the device lock for ever, in every continuation |
| HalCalls.FingerprintCancel | fingerprint/fingerprint.c:517-546 | follows the machine, the join of the timeout thread included; CANCEL is written and a notice sent exactly when the two readings allow it, so also when the second one is already IDLE |
| HalCalls.Timeout | fingerprint/fingerprint_tz.c:430-457 | follows the machine; CANCEL is written exactly after a timeout that finds a session, and the notice sent at every timeout |
| HalCalls.ProcessSignal | fingerprint/fingerprint.c:89-106 | follows the machine, the handshake with the timeout thread included; the flag is raised exactly when both readings find a session |
| HalCalls.ReadFiveTimes | fingerprint/fingerprint_tz.c:459-469 | of the five readings only the fifth decides |
| HalCalls.FingerprintAuthenticate | fingerprint/fingerprint.c:426-442 | follows the machine; SCAN is written exactly if the fifth reading is IDLE, and the result is that of the step that failed, or 0 |
| HalCalls.FingerprintEnroll | fingerprint/fingerprint.c:472-490 | follows the machine; ENROLL is written exactly if a slot is free and the reading is IDLE; with all slots taken the thread is stuck |
| SessionTraces.WorkerFollowsTrace | fingerprint/fingerprint_tz.c:203-428 | in every interleaving the trace of a worker, a function of the steps taken and the values read in that execution, leads to where the worker is, with as many commands, aborts and steps as it counts |
| SessionTraces.EnrolmentInSession | fingerprint/fingerprint_tz.c:307-428 | what an enrolment worker has sent in a concurrent execution is at every moment a prefix of the enrolment script |
| SessionTraces.AuthenticationInSession | fingerprint/fingerprint_tz.c:203-295 | what an authenticate worker has sent in a concurrent execution has the authentication shape, with at most one accepted match |
| AfterAbort.AbortEnds | fingerprint/fingerprint_tz.c:145-157 | after a CaptureAbort behind the wait or in the read loop the worker sends nothing but the shutdown |
| AfterAbort.RevivedExactly | fingerprint/fingerprint_tz.c:140-163 | after a CaptureAbort in the guard the worker reads an image if and only if both of its next two tests find a session, their first reading not IDLE and their second not CANCEL |
| SessionExamples.CancelledEnrolmentFinishes | fingerprint/fingerprint_tz.c:140-145 | a run in which an enrolment worker answers its cancel and then sends EnrollFinish under the state of a new authentication |
| WorkerTrace.CommandsOfSession | fingerprint/fingerprint_tz.h:25-58 | the program counters that send are those with a command, and the aborting one sends CaptureAbort |
| WorkerScripts.EnrolmentTrace | fingerprint/fingerprint_tz.c:307-428 | for all replies the commands outside captures are EnrollBegin, UnknownA, images, then all five of Finish, Bind, Bind, Password, Password or none, each part only after the one before |
| WorkerScripts.FinishCause | fingerprint/fingerprint_tz.c:347-382 | EnrollFinish follows a completed countdown, or a loop test that read something else than ENROLL, and never both |
| WorkerScripts.FinishWithoutImage | fingerprint/fingerprint_tz.c:347-382 | a trace with EnrollFinish and no image at all |
| WorkerScripts.EndingForGood | fingerprint/fingerprint_tz.c:423-427 | an enrolment that has left its loop without completing, or is done, captures and completes nothing more |
| WorkerScripts.ImageNeedsCapture | fingerprint/fingerprint_tz.c:348-355 | an image is added, or matched, directly after an accepted capture or a capture start that failed with another value than -1 |
| AuthenticateScript.AuthenticationTrace | fingerprint/fingerprint_tz.c:203-295 | for all replies at most one match is accepted, and one payload is released exactly if one was |
| AuthenticateScript.EndedForGood | fingerprint/fingerprint_tz.c:287-294 | nothing is captured, matched or released once the loop is left |
| AuthenticateScript.FailureReleasesNothing | fingerprint/fingerprint_tz.c:223-256 | after a capture that returned -1, or any other end without an accepted match, the whole run releases no payload |
| AuthenticateScript.ReleaseExcludesFailure | fingerprint/fingerprint_tz.c:223-286 | a run that has released a payload had no capture that returned -1 and no other end without an accepted match |
| Capture.CheckState | fingerprint/fingerprint_tz.c:88-106 | stops on a first reading of IDLE, answers a second reading of CANCEL with CaptureAbort and then IDLE, and goes on otherwise, with nothing else in the journal; in the machine's steps |
| Capture.StartCapture | fingerprint/fingerprint_tz.c:113-194 | the capture follows the machine to the point for -1 or for any other value, and says INSUFFICIENT once for each image that the app rejects, and nothing else |
| Capture.AttemptCapture | fingerprint/fingerprint_tz.c:122-193 | a refused CaptureStart is the last command and its transport value is returned; the attempt is repeated exactly when the image is rejected |
| Capture.ProcessImage | fingerprint/fingerprint_tz.c:175-193 | -1 when the judging command fails, another attempt exactly when its result is not 0 |
| Capture.AwaitSignal | fingerprint/fingerprint_tz.c:140-144 | the guarded wait follows the machine and gives the lock back |
| Capture.ReadImage | fingerprint/fingerprint_tz.c:154-173 | the retry loop ends with the first accepted reply whose data[2] is 2, or with the session over and no such reply |
| AuthenticateWorker.MatchImage | fingerprint/fingerprint_tz.c:226-285 | the notice is INSUFFICIENT for a rejected match, an error for a failed one and none for an accepted one; the templates of the moment are packed, and after an accepted reply the payload released is that of the slot which the index denotes, in the slots of that later moment |
| AuthenticateWorker.Authenticate | fingerprint/fingerprint_tz.c:203-295 | the worker follows the machine to its end; its notices are, in the order of the journal, one INSUFFICIENT for each rejected image or match and one error for a failed match, and then, for an accepted one, GOOD and authenticated; the authenticated notice only for a slot seen occupied after an accepted match of this run, and never when a capture of this run returned -1 |
| AuthenticateWorker.Attempts | fingerprint/fingerprint_tz.c:220-287 | the same notices for the loop alone |
| Notices.SinceIsBad | fingerprint/fingerprint.c:285-292 | whatever the app refuses, the framework is told INSUFFICIENT or an error, never GOOD, a report or an authentication |
| AuthenticateWorker.AnnouncedWasMatched | fingerprint/fingerprint_tz.c:239-271 | the announced slot is the one whose template was in the matched frame if and only if it was occupied at packing time with as many occupied slots before it; always so when the slots were left alone |
| EnrollWorker.BeginEnroll | fingerprint/fingerprint_tz.c:326-346 | the first command is EnrollBegin with the number of the slot; one error notice exactly when one of the two commands is not accepted |
| EnrollWorker.AddImage | fingerprint/fingerprint_tz.c:350-374 | count, notice and continuation for each reply: an error and the end, INSUFFICIENT, or a report with the new count, which is 0 exactly when data[2] is 1 |
| EnrollWorker.ReportedSaid | fingerprint/fingerprint_tz.c:347-374 | the reports among all that an enrolment says are one for each image, with the countdown, and none without a secure user |
| EnrollWorker.TakeImages | fingerprint/fingerprint_tz.c:347-374 | all notices in the order of the journal: a report with the countdown for each image that the app took, one INSUFFICIENT for each rejected image, one error for a failed command; only the last image may be the final one |
| EnrollWorker.SaveFinger | fingerprint/fingerprint_tz.c:375-422 | the slot gets the template of the Finish reply and the payload of the second Bind reply and is inserted once, whatever the replies say; other slots, tables and rows are unchanged |
| EnrollWorker.Enroll | fingerprint/fingerprint_tz.c:307-428 | the worker follows the machine to its end; the lowest slot free at the start is the one that EnrollBegin names, that the reports name, and that is filled and inserted exactly when the completion was sent, once; all its notices are given, in order |
| EnrollWorker.CountdownWhileWaiting | fingerprint/fingerprint_tz.c:366-370 | after n images without completion the count is max(8-n, 1) |
| EnrollWorker.ProgressClosedForm | fingerprint/fingerprint_tz.c:366-373 | the n-th report is max(8-n, 1), or 0 exactly for the image that the app calls the last |
| TrustZone.TrustZone.Call | fingerprint/fingerprint_tz.c:73-78 | any command gets an arbitrary reply, and is recorded with what it carried |
| TrustZone.TrustZone.UpdateCalibration | fingerprint/fingerprint_tz.c:65-86 | the calibration data is the bytes at data[2] of an accepted reply, data[3] + 15 of them, and otherwise what there was |
| TrustZone.TrustZone.Calibrate | fingerprint/fingerprint_tz.c:657-677 | the calibration data kept so far is sent, and that of an accepted reply kept exactly if there was none |
| TrustZone.TrustZone.UpdateAuthToken | fingerprint/fingerprint_tz.c:526-551 | two requests, of which the second decides by its result alone: the token is then that of the second reply, and otherwise unchanged; returns that result or the transport's value |
| TrustZone.TrustZone.StartAuthSession | fingerprint/fingerprint_tz.c:557-580 | after an accepted reply the session is open with the token of that reply, after any other nothing is changed |
| TrustZone.TrustZone.StopAuthSession | fingerprint/fingerprint_tz.c:586-604 | the session is closed and its token zero whatever the app answers |
| TrustZone.TrustZone.Resume | fingerprint/fingerprint_tz.c:613-679 | the commands of a start in order up to the first that is not accepted, keeping the hand-over; the value is the result field when the last command is EnterAuthSession and that of the call otherwise |
| TrustZone.ZeroReturnedExactly | fingerprint/fingerprint_tz.c:622-670 | the value is 0 if and only if all commands were accepted, or the last one was refused unnoticed: by the app alone when it is not EnterAuthSession, by the transport alone when it is |
| TrustZone.RefusalGoesUnnoticed | fingerprint/fingerprint_tz.c:622-625 | such a start: the app refuses Initialize, nothing more is sent, and the caller gets 0 |
| TrustZone.TrustZone.Init | fingerprint/fingerprint_tz.c:713-735 | nothing when already running, -1 when the app cannot be loaded, otherwise the whole of Resume with its value |
| TrustZone.TrustZone.Uninit | fingerprint/fingerprint_tz.c:686-706 | the token is fetched exactly when a session is open, and changes only to that of a second reply with result 0; then the app is ended and the state word is IDLE |
| HalSessions.RunAll | fingerprint/fingerprint_tz.c:613-735 | over any list of sessions of both kinds and of openings and closings of the auth session, each with its own start and end of the app, every command carries the tokens and the calibration data that the replies before it make due |
| Journal.TokenPresented | fingerprint/fingerprint_tz.c:632-645 | EnterAuthSession presents the token in the reply to the most recent second GetAuthToken with result 0, or zeros when there was none |
| Journal.CalibrationPresented | fingerprint/fingerprint_tz.c:657-676 | DeviceCalibrate carries the bytes of the latest accepted UpdateCalData, or of an accepted calibration sent without data, or none |
| Journal.SessionPresented | fingerprint/fingerprint_tz.c:557-604 | EnrollFinish and EnrollmentPasswordSet carry the token of the session that is open, or zeros; EnterAuthSession is sent only while one is open |
| Journal.CopiedFields | fingerprint/fingerprint_tz.c:548 | what is copied from a reply starts at data[2], and each four bytes of it are a field |
| Slots.FindFree | fingerprint/fingerprint_tz.c:319-324 | the lowest free slot, or 6 when there is none |
| Slots.CountEnrolled | fingerprint/fingerprint_tz.c:513-521 | the number of elements in the set of occupied slots |
| Slots.Pack | fingerprint/fingerprint_tz.c:238-248 | the count, and the template of each occupied slot, byte for byte and behind its header, at 102392 plus 15364 times the number of occupied slots before it |
| Slots.FramesDisjoint | fingerprint/fingerprint_tz.c:239-247 | frames overlap neither each other nor the count and end inside the command |
| Slots.Select | fingerprint/fingerprint_tz.c:261-271 | the slot whose rank is the index, or 0 when there is none |
| Slots.PackSelectInverse | fingerprint/fingerprint_tz.c:239-271 | with unchanged slots an index below the count denotes exactly the slot whose template is in that frame, and any other index none |
| Commands.AlignIsStrict | fingerprint/QSEEComAPI.h:27-30 | the mask expression gives a multiple of 64 in n+1..n+64 |
| Commands.LayoutFits | fingerprint/fingerprint_tz.h:60-108 | for every command used: what is written is sent, ends before the reply, and both fit in the shared buffer |
| Commands.EnrollBeginNeedsTheGap | fingerprint/fingerprint_tz.c:326-329 | the slot number lies behind its structure, and only the strict rounding keeps it in the command |
| Store.SwitchAgrees | fingerprint/fingerprint.c:414-424 | after a group switch slots and table agree, whatever the slots held, and no table lost a row |
| Store.SwitchExactly | fingerprint/fingerprint.c:200-234 | a group switch slot by slot, for any rows: the last row with the slot's id, else slots 0 to 4 cleared and slot 5 as it was; no table but a missing one of the new group changes |
| Store.LastSlotAfterSwitch | fingerprint/fingerprint.c:215 | slot 5 then matches its row if and only if it was free before or the new group has that row |
| Store.SlotWithoutRow | fingerprint/fingerprint.c:215 | five enrolments and a group switch on an empty database leave slot 5 occupied without a row |
| Store.SavedExactly | fingerprint/fingerprint_tz.c:385-402 | data and payload are kept as given, in the slot and in one new row of the active group; other slots and groups are unchanged |
| Store.SaveAgrees | fingerprint/fingerprint_tz.c:385-402 | an enrolment into the lowest free slot keeps the agreement and never makes two rows with one id |
| Store.FailedSave | fingerprint/fingerprint_tz.c:401-402 | when the insertion fails unnoticed the agreement is kept exactly for the last slot |
| Store.DeleteAgrees | fingerprint/fingerprint.c:243-249 | a removal keeps the agreement |
| Store.FailedDelete | fingerprint/fingerprint.c:243-249 | when the statement fails the slot is cleared all the same, and the agreement is kept exactly if there was no row |
| Store.AgreesAlways | fingerprint/fingerprint.c:200-259 | over any sequence of enrolments, removals and group switches without a database error, slots and store agree |
| Store.AgreesExactly | fingerprint/fingerprint.c:223-229 | agreement is equivalent to this, slot by slot: a row makes its slot exist with the bytes of that row, ids are unique, and only slot 5 may exist without a row |
| Store.DeleteFromExactly | fingerprint/fingerprint.c:579-590 | removal of all, with any statement results: which slots are cleared, which rows go, and that no other group changes |
| Store.RemoveAllEmpties | fingerprint/fingerprint.c:579-590 | without an error slots 1 to 5 are empty and the group's table has no rows, other tables unchanged |
| Device.FingerprintDevice.ReadToTz | fingerprint/fingerprint.c:200-234 | the table is created if needed, slots 0 to 4 are cleared, and the rows are copied over them in order; it runs past the slot table exactly when some row id is no slot |
| Device.FingerprintDevice.SetActiveGroup | fingerprint/fingerprint.c:414-424 | the device is as after the group switch of the store, unless the new group has a row whose id is no slot |
| Device.FingerprintDevice.DeleteFromDb | fingerprint/fingerprint.c:243-249 | the slot is cleared, and the row goes if the statement succeeds; for an id above 5 the code writes past the slot table |
| Device.FingerprintDevice.InsertIntoDb | fingerprint/fingerprint.c:250-257 | one more row with the slot's bytes, if the statement succeeds |
| Device.FingerprintDevice.Remove | fingerprint/fingerprint.c:566-608 | slots, tables, notices and return value of a removal of one finger or of all, with any statement results; for an id above 5 the code writes past the slot table |
| Device.RemovalsExactly | fingerprint/fingerprint.c:582-590 | the removed notices are exactly those of the occupied slots whose statement succeeded |
| Device.RemovalsAscend | fingerprint/fingerprint.c:582-590 | they come in strictly ascending order, so one for each slot |
| Device.LastResultIs | fingerprint/fingerprint.c:582-602 | the returned value is that of the highest occupied slot alone |
| Device.FailureHidden | fingerprint/fingerprint.c:582-607 | 0 is returned with a row left behind if and only if some statement failed but not the one for the highest occupied slot |

## Left out

- SessionSafety.AbortsBounded: counts one worker; for all workers together the bound fails when a worker that answered in the guard is revived by a new session, and `OneAnswerExactly` gives the exact condition.
- SessionProgress.BoundedCancellation: bounds what a worker spends; that IDLE is reached is `IdleIsWritten`, with the exact condition in `EndingExactly`, and both need that no start is about to overwrite the CANCEL, which `CancelPrevailsExactly` proves exact.
- SessionWakeUp.NoLostWakeUp: with several sleeping workers one signal wakes one of them; `SignalLeavesNone` is the exact form.
- EnrollWorker.Enroll: nobody else changes slots, tables or the group during the enrolment; the authenticate worker is modelled with such changes.
- Store.AgreesAlways: no database error, and ids in the tables unique and in 1..5 at the start; the failing cases are `FailedSave` and `FailedDelete`.
- Device.FingerprintDevice.Remove: what memory behind the slot table holds after a write past it is not modelled, here and in `ReadToTz`, `SetActiveGroup` and `DeleteFromDb`.
- TrustZone.TrustZone.Call: calibration data in a reply has a length of at most 0x500c; the code copies out of bounds otherwise.
- Slots.Pack: packing is one step; the code packs without a lock while other threads may write the slots.
- AuthenticateWorker.MatchImage: the slots may change between packing and selecting, but not while a template is copied.
- Capture.ReadImage: a loop that never ends has no finite list of readings; every beginning of it has.
- The lock around the state word covers single accesses, so each access is one atomic step of the session machine.
- The commands of vcs_init inside a start are one step of the session machine; `TrustZone.Init` has them one by one.
- That a worker can send commands to an app which an older worker has shut down, as IDLE is written before vcs_uninit, is not stated; `TwoLiveWorkers` shows the two workers.
- The lock of the timeout handshake and its condition variable are left out: the timeout thread may stop waiting at any time; other holders of the device lock are not threads of their own.
- Real time, sleeping, ioctl calls, loading of libraries, logging and the secure app's inside are not modelled; sqlite is a map of tables with arbitrary statement results.
- The fixed bytes of a command (header constants, timestamps) are not in the journal, only lengths and what is copied in.
- Commands.PlacementOf: sizes are those of a 32-bit time_t.
- db_convert_old_db, the one-off migration of a vendor database.
- Opening and closing of the device: fingerprint_close also writes IDLE, through vcs_uninit, and is no thread of the session machine, so "every continuation" means one in which the device stays open. Message field filling, and the check of the token that comes with an enrolment (fingerprint.c:453-470).
- Camera, radio, NFC, recovery and all configuration files.
