/**
 The table of enrolled fingers: slots 1 to 5 (slot 0 is never enrolled), the search for a free
 slot, and the packing of the occupied slots into one match command.
 */
module Slots {
  import opened Words
  import opened Commands

  const MAX_NUM_FINGERS: nat := 5

  type Template = data: seq<Byte> | |data| == FINGER_DATA_MAX_LENGTH witness seq(FINGER_DATA_MAX_LENGTH, _ => 0)
  type Payload = data: seq<Byte> | |data| == PAYLOAD_MAX_LENGTH witness seq(PAYLOAD_MAX_LENGTH, _ => 0)

  datatype Finger = Finger(exist: bool, data: Template, payload: Payload)

  function ZeroData(): Template { seq(FINGER_DATA_MAX_LENGTH, _ => 0) }

  function ZeroPayload(): Payload { seq(PAYLOAD_MAX_LENGTH, _ => 0) }

  /** A slot that memset has cleared. */
  const EMPTY := Finger(false, ZeroData(), ZeroPayload())

  type Table = slots: seq<Finger> | |slots| == MAX_NUM_FINGERS + 1 witness seq(MAX_NUM_FINGERS + 1, _ => EMPTY)

  // ----- counting occupied slots

  /** How many of the slots from 1 up to, not including, n are occupied. */
  function Occupied(slots: Table, n: nat): (count: nat)
    requires n <= MAX_NUM_FINGERS + 1
    ensures count <= n
  {
    if n <= 1 then 0
    else Occupied(slots, n - 1) + (if slots[n - 1].exist then 1 else 0)
  }

  function Enrolled(slots: Table): nat {
    Occupied(slots, MAX_NUM_FINGERS + 1)
  }

  ghost predicate IsLowestFree(slots: Table, idx: nat) {
    && 1 <= idx <= MAX_NUM_FINGERS + 1
    && (forall i | 1 <= i < idx :: slots[i].exist)
    && (idx <= MAX_NUM_FINGERS ==> !slots[idx].exist)
  }

  /** The loop that both fingerprint_enroll and vcs_enroll run; 6 means that there is no free slot. */
  method FindFree(finger: array<Finger>) returns (idx: nat)
    requires finger.Length == MAX_NUM_FINGERS + 1
    ensures IsLowestFree(finger[..], idx)
  {
    idx := 1;
    while idx <= MAX_NUM_FINGERS
      invariant 1 <= idx <= MAX_NUM_FINGERS + 1
      invariant forall i | 1 <= i < idx :: finger[..][i].exist
    {
      if !finger[idx].exist {
        break;
      }
      idx := idx + 1;
    }
  }

  /** vcs_get_enrolled_finger_num. */
  method CountEnrolled(finger: array<Finger>) returns (num: nat)
    requires finger.Length == MAX_NUM_FINGERS + 1
    ensures num == Enrolled(finger[..])
    ensures num == |set i | 1 <= i < MAX_NUM_FINGERS + 1 && finger[..][i].exist|
  {
    OccupiedCounts(finger[..], MAX_NUM_FINGERS + 1);
    num := 0;
    for idx := 1 to MAX_NUM_FINGERS + 1
      invariant num == Occupied(finger[..], idx)
    {
      if finger[idx].exist {
        num := num + 1;
      }
    }
  }

  // ----- packing

  function FrameAt(k: nat): nat {
    FRAMES + k * FRAME_STEP
  }

  /** Frame k of a match command's data holds this template behind its four-byte header. */
  ghost predicate FrameHolds(data: seq<Byte>, k: nat, template: Template)
    requires k < FRAME_COUNT && |data| == MATCH_DATA
  {
    && data[FrameAt(k)] == 0x45 && data[FrameAt(k) + 1] == 0x28
    && data[FrameAt(k) + 4..FrameAt(k) + 4 + FINGER_DATA_MAX_LENGTH] == template
  }

  /** The data of a match command: the count, then the occupied slots from below slot n in order. */
  ghost predicate Packed(data: seq<Byte>, slots: Table, n: nat)
    requires |data| == MATCH_DATA && n <= MAX_NUM_FINGERS + 1
  {
    && data[0] == 1 && data[102388] == Enrolled(slots)
    && forall i | 1 <= i < n && slots[i].exist :: FrameOfSlot(data, slots, i)
  }

  ghost predicate FrameOfSlot(data: seq<Byte>, slots: Table, i: nat)
    requires |data| == MATCH_DATA && i <= MAX_NUM_FINGERS
  {
    Occupied(slots, i) < FRAME_COUNT && FrameHolds(data, Occupied(slots, i), slots[i].data)
  }

  method Pack(finger: array<Finger>) returns (data: array<Byte>)
    requires finger.Length == MAX_NUM_FINGERS + 1
    ensures fresh(data) && data.Length == MATCH_DATA
    ensures Packed(data[..], finger[..], MAX_NUM_FINGERS + 1)
    ensures data[0] == 1 && data[102388] == |set i | 1 <= i < MAX_NUM_FINGERS + 1 && finger[..][i].exist|
    ensures forall i | 1 <= i <= MAX_NUM_FINGERS && finger[..][i].exist ::
      var address := 102392 + |set j | 1 <= j < i && finger[..][j].exist| * 15364;
      && address + 4 + FINGER_DATA_MAX_LENGTH <= data.Length && data[address] == 0x45 && data[address + 1] == 0x28
      && data[address + 4..address + 4 + FINGER_DATA_MAX_LENGTH] == finger[i].data
  {
    ghost var slots: Table := finger[..];
    data := new Byte[MATCH_DATA](_ => 0);
    data[0] := 1;
    var num := CountEnrolled(finger);
    data[102388] := num;
    var len := 0;
    for idx := 1 to MAX_NUM_FINGERS + 1
      invariant len == Occupied(slots, idx)
      invariant finger[..] == slots && data.Length == MATCH_DATA
      invariant Packed(data[..], slots, idx)
    {
      if finger[idx].exist {
        len := len + 1;
        WriteFrame(data, len - 1, finger[idx].data, slots, idx);
      }
    }
    PackedExactly(data[..], slots);
  }

  /** The layout in numbers: the count, and each occupied slot's frame behind those of the occupied slots before it. */
  lemma PackedExactly(data: seq<Byte>, slots: Table)
    requires |data| == MATCH_DATA && Packed(data, slots, MAX_NUM_FINGERS + 1)
    ensures data[0] == 1 && data[102388] == |set i | 1 <= i < MAX_NUM_FINGERS + 1 && slots[i].exist|
    ensures forall i | 1 <= i <= MAX_NUM_FINGERS && slots[i].exist ::
      var address := 102392 + |set j | 1 <= j < i && slots[j].exist| * 15364;
      && address + 4 + FINGER_DATA_MAX_LENGTH <= |data| && data[address] == 0x45 && data[address + 1] == 0x28
      && data[address + 4..address + 4 + FINGER_DATA_MAX_LENGTH] == slots[i].data
  {
    OccupiedCounts(slots, MAX_NUM_FINGERS + 1);
    forall i | 1 <= i <= MAX_NUM_FINGERS && slots[i].exist
      ensures FrameOfSlot(data, slots, i) && Occupied(slots, i) == |set j | 1 <= j < i && slots[j].exist|
    {
      OccupiedCounts(slots, i);
    }
    hide Occupied;
  }

  lemma {:induction false} OccupiedCounts(slots: Table, n: nat)
    requires n <= MAX_NUM_FINGERS + 1
    ensures Occupied(slots, n) == |set i | 1 <= i < n && slots[i].exist|
  {
    var counted := set i | 1 <= i < n && slots[i].exist;
    if n <= 1 {
      assert counted == {};
    } else {
      OccupiedCounts(slots, n - 1);
      var before := set i | 1 <= i < n - 1 && slots[i].exist;
      if slots[n - 1].exist {
        assert counted == before + {n - 1};
      } else {
        assert counted == before;
      }
    }
  }

  /** Writes one frame and leaves the count and the earlier frames alone. */
  method WriteFrame(data: array<Byte>, k: nat, template: Template, ghost slots: Table, ghost idx: nat)
    requires data.Length == MATCH_DATA && 1 <= idx <= MAX_NUM_FINGERS
    requires k == Occupied(slots, idx) && slots[idx].exist && template == slots[idx].data
    requires Packed(data[..], slots, idx)
    modifies data
    ensures Packed(data[..], slots, idx + 1)
  {
    var address := FRAMES + k * FRAME_STEP;
    ghost var before := data[..];
    OccupiedBound(slots, idx);
    data[address] := 0x45;
    data[address + 1] := 0x28;
    forall j | 0 <= j < FINGER_DATA_MAX_LENGTH {
      data[address + 4 + j] := template[j];
    }
    assert FrameHolds(data[..], k, template);
    assert data[102388] == before[102388];
    forall i | 1 <= i < idx && slots[i].exist
      ensures FrameOfSlot(data[..], slots, i)
    {
      assert FrameOfSlot(before, slots, i);
      OccupiedIncreases(slots, i, idx);
      FramesDisjoint(Occupied(slots, i), k);
      var at := FrameAt(Occupied(slots, i));
      assert data[..][at + 4..at + 4 + FINGER_DATA_MAX_LENGTH] == before[at + 4..at + 4 + FINGER_DATA_MAX_LENGTH];
    }
  }

  lemma {:induction false} OccupiedBound(slots: Table, n: nat)
    requires 1 <= n <= MAX_NUM_FINGERS + 1
    ensures Occupied(slots, n) <= n - 1
  {
    if n > 1 {
      OccupiedBound(slots, n - 1);
    }
  }

  /** An occupied slot comes before every later slot in the packing. */
  lemma {:induction false} OccupiedIncreases(slots: Table, i: nat, j: nat)
    requires 1 <= i < j <= MAX_NUM_FINGERS + 1 && slots[i].exist
    ensures Occupied(slots, i) < Occupied(slots, j)
  {
    if i + 1 < j {
      OccupiedIncreases(slots, i, j - 1);
    }
  }

  /** Frames neither overlap each other nor the count, and end inside the command. */
  lemma FramesDisjoint(k: nat, m: nat)
    requires k < m < FRAME_COUNT
    ensures 102388 < FrameAt(k)
    ensures FrameAt(k) + 4 + FINGER_DATA_MAX_LENGTH <= FrameAt(m)
    ensures FrameAt(m) + 4 + FINGER_DATA_MAX_LENGTH <= MATCH_DATA
  {
  }

  // ----- selecting

  /** Slot idx is the occupied slot with k occupied slots before it. */
  predicate IsSlotOf(slots: Table, k: int, idx: nat) {
    1 <= idx <= MAX_NUM_FINGERS && slots[idx].exist && Occupied(slots, idx) == k
  }

  ghost predicate IsSlotOfNone(slots: Table, k: int) {
    forall i: nat :: !IsSlotOf(slots, k, i)
  }

  /** The second loop of vcs_authenticate: from the index in the reply to a slot, or to 0. */
  method Select(finger: array<Finger>, index: int) returns (fingerindex: nat)
    requires finger.Length == MAX_NUM_FINGERS + 1
    ensures fingerindex != 0 ==> IsSlotOf(finger[..], index, fingerindex)
    ensures fingerindex == 0 ==> IsSlotOfNone(finger[..], index)
  {
    fingerindex := 0;
    var fakeFid := index + 1;
    var len := 0;
    var idx := 1;
    while idx <= MAX_NUM_FINGERS
      invariant 1 <= idx <= MAX_NUM_FINGERS + 1
      invariant len == Occupied(finger[..], idx)
      invariant forall i: nat | i < idx :: !IsSlotOf(finger[..], index, i)
    {
      if finger[idx].exist {
        len := len + 1;
        if len == fakeFid {
          fingerindex := idx;
          break;
        }
      }
      idx := idx + 1;
    }
  }

  lemma SlotOfUnique(slots: Table, k: int, i: nat, j: nat)
    requires IsSlotOf(slots, k, i) && IsSlotOf(slots, k, j)
    ensures i == j
  {
    if i < j {
      OccupiedIncreases(slots, i, j);
    } else if j < i {
      OccupiedIncreases(slots, j, i);
    }
  }

  lemma {:induction false} SlotOfExists(slots: Table, k: nat, n: nat) returns (idx: nat)
    requires n <= MAX_NUM_FINGERS + 1 && k < Occupied(slots, n)
    ensures idx < n && IsSlotOf(slots, k, idx)
  {
    if k < Occupied(slots, n - 1) {
      idx := SlotOfExists(slots, k, n - 1);
    } else {
      idx := n - 1;
    }
  }

  /**
   Packing and selecting are inverse while the slots stay as they are: an index below the count
   denotes exactly one slot, the one whose template is in that frame, and any other index none.
   */
  lemma PackSelectInverse(data: seq<Byte>, slots: Table, k: int) returns (idx: nat)
    requires |data| == MATCH_DATA && Packed(data, slots, MAX_NUM_FINGERS + 1)
    ensures 0 <= k < data[102388] <==> idx != 0
    ensures idx != 0 ==> IsSlotOf(slots, k, idx) && k < FRAME_COUNT && FrameHolds(data, k, slots[idx].data)
    ensures forall i: nat :: IsSlotOf(slots, k, i) ==> i == idx
  {
    if 0 <= k < Enrolled(slots) {
      idx := SlotOfExists(slots, k, MAX_NUM_FINGERS + 1);
      assert FrameOfSlot(data, slots, idx);
      forall i: nat | IsSlotOf(slots, k, i)
        ensures i == idx
      {
        SlotOfUnique(slots, k, i, idx);
      }
    } else {
      idx := 0;
      forall i: nat
        ensures !IsSlotOf(slots, k, i)
      {
        if IsSlotOf(slots, k, i) {
          OccupiedIncreases(slots, i, MAX_NUM_FINGERS + 1);
        }
      }
    }
  }
}
