/**
 The notices that the worker threads send because the app refused something, read off the journal.
 */
module Notices {
  import opened Journal
  import opened Device

  /** What the framework is told when this command fails or is refused. */
  function Complaint(e: Event): seq<Notice> {
    if !e.Sent? then []
    else
      match e.command
      case CaptureProcessData =>
        if e.answer.ret == 0 && e.answer.result != 0 then [Acquired(false)] else []
      case MatchImageToTemplates | EnrollAddImage =>
        if e.answer.ret != 0 then [Error(ERROR_UNABLE_TO_PROCESS)]
        else if e.answer.result != 0 then [Acquired(false)]
        else []
      case EnrollBegin | VendorUnknownA =>
        if IsAccepted(e.answer) then [] else [Error(ERROR_UNABLE_TO_PROCESS)]
      case _ => []
  }

  function Complaints(events: seq<Event>): seq<Notice> {
    if events == [] then []
    else Complaints(events[..|events| - 1]) + Complaint(events[|events| - 1])
  }

  lemma {:induction false} ComplaintsConcat(first: seq<Event>, rest: seq<Event>)
    ensures Complaints(first + rest) == Complaints(first) + Complaints(rest)
    decreases |rest|
  {
    hide Complaint;
    if rest == [] {
      assert first + rest == first;
    } else {
      var front := rest[..|rest| - 1];
      assert (first + rest)[..|first + rest| - 1] == first + front;
      ComplaintsConcat(first, front);
    }
  }

  lemma OneComplaint(e: Event)
    ensures Complaints([e]) == Complaint(e)
  {
    assert [e][..0] == [];
  }

  /** The complaints between two moments. */
  function Since(before: seq<Event>, now: seq<Event>): seq<Notice>
    requires before <= now
  {
    Complaints(now[|before|..])
  }

  lemma SinceThen(first: seq<Event>, second: seq<Event>, third: seq<Event>)
    requires first <= second <= third
    ensures first <= third && Since(first, third) == Since(first, second) + Since(second, third)
  {
    assert third[|first|..] == second[|first|..] + third[|second|..];
    ComplaintsConcat(second[|first|..], third[|second|..]);
  }

  lemma SinceOne(before: seq<Event>, e: Event)
    ensures Since(before, before + [e]) == Complaint(e)
  {
    assert (before + [e])[|before|..] == [e];
    OneComplaint(e);
  }

  /** Nothing is refused in between. */
  ghost predicate Contented(before: seq<Event>, now: seq<Event>) {
    before <= now && forall k | |before| <= k < |now| :: Complaint(now[k]) == []
  }

  lemma {:induction false} ContentedSince(before: seq<Event>, now: seq<Event>)
    requires Contented(before, now)
    ensures Since(before, now) == []
  {
    if |before| < |now| {
      var front := now[..|now| - 1];
      ContentedSince(before, front);
      SinceThen(before, front, now);
      assert now == front + [now[|now| - 1]];
      SinceOne(front, now[|now| - 1]);
    } else {
      assert now == before;
    }
  }

  /** No complaint says that a finger is good, enrolled or recognised. */
  lemma {:induction false} ComplaintsAreBad(events: seq<Event>)
    ensures forall n | n in Complaints(events) :: n == Acquired(false) || n == Error(ERROR_UNABLE_TO_PROCESS)
  {
    if events != [] {
      ComplaintsAreBad(events[..|events| - 1]);
    }
  }

  lemma SinceIsBad(before: seq<Event>, now: seq<Event>)
    requires before <= now
    ensures forall n | n in Since(before, now) :: n == Acquired(false) || n == Error(ERROR_UNABLE_TO_PROCESS)
  {
    ComplaintsAreBad(now[|before|..]);
  }
}
