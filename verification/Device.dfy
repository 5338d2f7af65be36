/**
 The HAL device: the slots in memory, the database, and the notices sent to the framework.
 */
module Device {
  import opened Slots
  import opened Store

  const ERROR_UNABLE_TO_PROCESS := 2
  const ERROR_UNABLE_TO_REMOVE := 6

  datatype Notice =
    | Error(code: int)
    | Acquired(good: bool)
    | Enrolling(fid: nat, remaining: int)
    | Authenticated(fid: nat)
    | Removed(fid: nat)

  /** The removed notices for the occupied slots from idx on. */
  function Removals(slots: Table, idx: nat, rcs: seq<int>): seq<Notice>
    requires 1 <= idx <= MAX_NUM_FINGERS + 1 && |rcs| == MAX_NUM_FINGERS + 1
    decreases MAX_NUM_FINGERS + 1 - idx
  {
    if idx > MAX_NUM_FINGERS then []
    else (if slots[idx].exist && rcs[idx] == 0 then [Removed(idx)] else []) + Removals(slots, idx + 1, rcs)
  }

  /** The value of `ret` after the loop, entered with the value ret. */
  function LastResult(slots: Table, idx: nat, rcs: seq<int>, ret: int): int
    requires 1 <= idx <= MAX_NUM_FINGERS + 1 && |rcs| == MAX_NUM_FINGERS + 1
    decreases MAX_NUM_FINGERS + 1 - idx
  {
    if idx > MAX_NUM_FINGERS then ret
    else LastResult(slots, idx + 1, rcs, if slots[idx].exist then rcs[idx] else ret)
  }

  /** The three functions above, and DeleteFrom, at one slot. */
  lemma RemoveOne(s: Store, slots: Table, idx: nat, rcs: seq<int>, ret: int)
    requires 1 <= idx <= MAX_NUM_FINGERS + 1 && |rcs| == MAX_NUM_FINGERS + 1
    requires idx <= MAX_NUM_FINGERS ==> s.slots[idx] == slots[idx]
    ensures idx > MAX_NUM_FINGERS ==>
      DeleteFrom(s, idx, rcs) == s && Removals(slots, idx, rcs) == [] && LastResult(slots, idx, rcs, ret) == ret
    ensures idx <= MAX_NUM_FINGERS && slots[idx].exist ==>
      && DeleteFrom(s, idx, rcs) == DeleteFrom(Delete(s, idx, rcs[idx]), idx + 1, rcs)
      && Removals(slots, idx, rcs) == (if rcs[idx] == 0 then [Removed(idx)] else []) + Removals(slots, idx + 1, rcs)
      && LastResult(slots, idx, rcs, ret) == LastResult(slots, idx + 1, rcs, rcs[idx])
    ensures idx <= MAX_NUM_FINGERS && !slots[idx].exist ==>
      && DeleteFrom(s, idx, rcs) == DeleteFrom(s, idx + 1, rcs)
      && Removals(slots, idx, rcs) == Removals(slots, idx + 1, rcs)
      && LastResult(slots, idx, rcs, ret) == LastResult(slots, idx + 1, rcs, ret)
  {
  }

  /** Whether an id denotes an element of the slot table. */
  predicate IsSlot(id: int) {
    0 <= id <= MAX_NUM_FINGERS
  }

  class FingerprintDevice {
    const finger: array<Finger>
    var tables: map<nat, seq<Row>>
    var activeGid: nat
    var secureUserId: nat
    var notices: seq<Notice>

    constructor (tables: map<nat, seq<Row>>)
      ensures fresh(finger) && Valid()
      ensures View() == Store(seq(MAX_NUM_FINGERS + 1, _ => EMPTY), tables, 0) && notices == []
    {
      this.finger := new Finger[MAX_NUM_FINGERS + 1](_ => EMPTY);
      this.tables, activeGid, secureUserId, notices := tables, 0, 0, [];
      new;
      assert finger[..] == seq(MAX_NUM_FINGERS + 1, _ => EMPTY);
    }

    ghost predicate Valid() {
      finger.Length == MAX_NUM_FINGERS + 1
    }

    ghost function View(): Store
      requires Valid()
      reads this, finger
    {
      Store(finger[..], tables, activeGid)
    }

    /** The first n rows of the active table are in the slots, and the next one has an id that is no slot. */
    ghost predicate LoadedUpTo(n: nat, before: Table)
      requires Valid()
      reads this, finger
    {
      && activeGid in tables && n < |tables[activeGid]| && !IsSlot(tables[activeGid][n].id)
      && forall i | 0 <= i <= MAX_NUM_FINGERS :: finger[..][i] == LoadedSlot(tables[activeGid][..n], before, i)
    }

    method Notify(notice: Notice)
      modifies this`notices
      ensures notices == old(notices) + [notice]
    {
      notices := notices + [notice];
    }

    /**
     db_read_to_tz: the rows of the active group are copied into the slots.  A row whose id is no
     slot makes the code write outside its table; the model stops there.
     */
    method ReadToTz() returns (overrun: bool)
      requires Valid()
      modifies this`tables, finger
      ensures overrun <==> exists r | r in Rows(old(tables), activeGid) :: !IsSlot(r.id)
      ensures !overrun ==> View() == Load(old(View()))
      ensures overrun ==>
        && tables == Created(old(tables), activeGid)
        && exists n | 0 <= n < |tables[activeGid]| :: LoadedUpTo(n, old(finger[..]))
    {
      if activeGid !in tables {
        tables := tables[activeGid := []];
      }
      overrun := false;
      var rows := tables[activeGid];
      assert rows == Rows(old(tables), activeGid);
      ghost var slots: Table := finger[..];
      for i := 0 to MAX_NUM_FINGERS
        modifies finger
        invariant forall j | 0 <= j <= MAX_NUM_FINGERS :: finger[..][j] == if j < i then EMPTY else slots[j]
      {
        finger[i] := EMPTY;
      }
      assert rows[..0] == [];
      for n := 0 to |rows|
        modifies finger
        invariant forall i | 0 <= i <= MAX_NUM_FINGERS :: finger[..][i] == LoadedSlot(rows[..n], slots, i)
        invariant forall r | r in rows[..n] :: IsSlot(r.id)
      {
        var row := rows[n];
        if !IsSlot(row.id) {
          overrun := true;
          assert LoadedUpTo(n, slots);
          return;
        }
        assert row in rows;
        assert rows[..n + 1][..n] == rows[..n];
        finger[row.id] := Finger(true, row.data, row.payload);
      }
      assert rows[..|rows|] == rows;
    }

    /** fingerprint_set_active_group. */
    method SetActiveGroup(gid: nat) returns (overrun: bool)
      requires Valid()
      modifies this`activeGid, this`tables, finger
      ensures overrun <==> exists r | r in Rows(old(tables), gid) :: !IsSlot(r.id)
      ensures activeGid == gid
      ensures !overrun ==> View() == Switch(old(View()), gid)
      ensures overrun ==>
        && tables == Created(old(tables), gid)
        && exists n | 0 <= n < |tables[gid]| :: LoadedUpTo(n, old(finger[..]))
    {
      activeGid := gid;
      overrun := ReadToTz();
    }

    /**
     db_write_to_db with remove set; rc is the result of the statement.  For an id that is no slot
     the row goes, and then memory outside the table is cleared; the model stops there.
     */
    method DeleteFromDb(fid: nat, rc: int) returns (ret: int, overrun: bool)
      requires Valid()
      modifies this`tables, finger
      ensures ret == rc && (overrun <==> !IsSlot(fid))
      ensures if overrun then finger[..] == old(finger[..]) && tables == (if rc == 0 then Deleted(old(tables), activeGid, fid) else old(tables))
              else View() == Delete(old(View()), fid, rc)
    {
      ret := rc;
      if ret == 0 && activeGid in tables {
        tables := tables[activeGid := Without(tables[activeGid], fid)];
      }
      overrun := !IsSlot(fid);
      if !overrun {
        finger[fid] := EMPTY;
      }
    }

    /** db_write_to_db with remove unset: one more row, made from the slot, if the statement succeeds. */
    method InsertIntoDb(fid: nat, succeeds: bool)
      requires Valid() && 1 <= fid <= MAX_NUM_FINGERS
      modifies this`tables
      ensures tables == if succeeds && activeGid in old(tables)
                        then old(tables)[activeGid := old(tables)[activeGid] + [Row(fid, finger[fid].data, finger[fid].payload)]]
                        else old(tables)
    {
      if succeeds && activeGid in tables {
        tables := tables[activeGid := tables[activeGid] + [Row(fid, finger[fid].data, finger[fid].payload)]];
      }
    }

    /**
     fingerprint_remove.  The results of the statements are rcs[i] for row i when everything is
     removed, and rc for a single row.
     */
    method Remove(fid: nat, rcs: seq<int>, rc: int) returns (ret: int, overrun: bool)
      requires Valid() && |rcs| == MAX_NUM_FINGERS + 1
      modifies this`tables, this`notices, finger
      ensures overrun <==> !IsSlot(fid)
      ensures overrun ==>
        && finger[..] == old(finger[..]) && notices == old(notices) && ret == rc
        && tables == if rc == 0 then Deleted(old(tables), activeGid, fid) else old(tables)
      ensures !overrun ==>
        && View() == (if fid == 0 then DeleteFrom(old(View()), 1, rcs) else Delete(old(View()), fid, rc))
        && ret == (if fid == 0 then LastResult(old(finger[..]), 1, rcs, 0) else rc)
        && notices == old(notices)
             + (if fid == 0 then Removals(old(finger[..]), 1, rcs) else if rc == 0 then [Removed(fid)] else [])
             + (if ret != 0 then [Error(ERROR_UNABLE_TO_REMOVE)] else [])
    {
      ret, overrun := 0, false;
      if fid == 0 {
        ret := RemoveEvery(rcs);
      } else {
        ret, overrun := DeleteFromDb(fid, rc);
        if overrun {
          return;
        }
        if ret == 0 {
          Notify(Removed(fid));
        }
      }
      if ret != 0 {
        Notify(Error(ERROR_UNABLE_TO_REMOVE));
      }
    }

    method RemoveEvery(rcs: seq<int>) returns (ret: int)
      requires Valid() && |rcs| == MAX_NUM_FINGERS + 1
      modifies this`tables, this`notices, finger
      ensures View() == DeleteFrom(old(View()), 1, rcs)
      ensures ret == LastResult(old(finger[..]), 1, rcs, 0)
      ensures notices == old(notices) + Removals(old(finger[..]), 1, rcs)
    {
      hide DeleteFrom, LastResult, Removals;
      ghost var slots: Table := finger[..];
      ret := 0;
      for idx := 1 to MAX_NUM_FINGERS + 1
        invariant DeleteFrom(View(), idx, rcs) == DeleteFrom(old(View()), 1, rcs)
        invariant forall i | idx <= i <= MAX_NUM_FINGERS :: finger[..][i] == slots[i]
        invariant LastResult(slots, idx, rcs, ret) == LastResult(slots, 1, rcs, 0)
        invariant notices + Removals(slots, idx, rcs) == old(notices) + Removals(slots, 1, rcs)
      {
        RemoveOne(View(), slots, idx, rcs, ret);
        if finger[idx].exist {
          var overrun;
          ret, overrun := DeleteFromDb(idx, rcs[idx]);
          if ret == 0 {
            Notify(Removed(idx));
          }
        }
      }
      RemoveOne(View(), slots, MAX_NUM_FINGERS + 1, rcs, ret);
    }
  }

  // ----- what removal reports

  /** The notices name exactly the occupied slots whose row was deleted. */
  lemma {:induction false} RemovalsExactly(slots: Table, idx: nat, rcs: seq<int>)
    requires 1 <= idx <= MAX_NUM_FINGERS + 1 && |rcs| == MAX_NUM_FINGERS + 1
    ensures forall n :: n in Removals(slots, idx, rcs) <==>
      n.Removed? && Removable(slots, idx, n.fid) && rcs[n.fid] == 0
    decreases MAX_NUM_FINGERS + 1 - idx
  {
    if idx <= MAX_NUM_FINGERS {
      RemovalsExactly(slots, idx + 1, rcs);
    }
  }

  lemma {:induction false} RemovalsAscend(slots: Table, idx: nat, rcs: seq<int>)
    requires 1 <= idx <= MAX_NUM_FINGERS + 1 && |rcs| == MAX_NUM_FINGERS + 1
    ensures Ascending(Removals(slots, idx, rcs))
    decreases MAX_NUM_FINGERS + 1 - idx
  {
    if idx <= MAX_NUM_FINGERS {
      RemovalsAscend(slots, idx + 1, rcs);
      RemovalsExactly(slots, idx + 1, rcs);
      AscendingBefore(idx, Removals(slots, idx + 1, rcs));
    }
  }

  /** Removed notices in ascending order of finger. */
  ghost predicate Ascending(notices: seq<Notice>) {
    && (forall i | 0 <= i < |notices| :: notices[i].Removed?)
    && forall i, j | 0 <= i < j < |notices| :: notices[i].fid < notices[j].fid
  }

  lemma AscendingBefore(fid: nat, rest: seq<Notice>)
    requires Ascending(rest) && forall n | n in rest :: n.Removed? && fid < n.fid
    ensures Ascending([Removed(fid)] + rest)
  {
    assert forall j | 0 <= j < |rest| :: rest[j] in rest;
  }

  /** Slot i is the highest occupied one. */
  predicate IsLastOccupied(slots: Table, i: nat) {
    1 <= i <= MAX_NUM_FINGERS && slots[i].exist && forall j | i < j <= MAX_NUM_FINGERS :: !slots[j].exist
  }

  /** Only the deletion of the highest occupied slot decides the return value. */
  lemma {:induction false} LastResultIs(slots: Table, idx: nat, rcs: seq<int>, ret: int, i: nat)
    requires 1 <= idx <= i && |rcs| == MAX_NUM_FINGERS + 1 && IsLastOccupied(slots, i)
    ensures LastResult(slots, idx, rcs, ret) == rcs[i]
    decreases i - idx
  {
    if idx < i {
      LastResultIs(slots, idx + 1, rcs, if slots[idx].exist then rcs[idx] else ret, i);
    } else {
      LastResultKept(slots, idx + 1, rcs, rcs[i]);
    }
  }

  lemma {:induction false} LastResultKept(slots: Table, idx: nat, rcs: seq<int>, ret: int)
    requires 1 <= idx <= MAX_NUM_FINGERS + 1 && |rcs| == MAX_NUM_FINGERS + 1
    requires forall j | idx <= j <= MAX_NUM_FINGERS :: !slots[j].exist
    ensures LastResult(slots, idx, rcs, ret) == ret
    decreases MAX_NUM_FINGERS + 1 - idx
  {
    if idx <= MAX_NUM_FINGERS {
      LastResultKept(slots, idx + 1, rcs, ret);
    }
  }

  /**
   Removal with fid 0 returns 0, and so sends no error notice, although a row it should have
   deleted is still there, exactly when some statement failed but not the one for the highest
   occupied slot.
   */
  lemma FailureHidden(s: Store, rcs: seq<int>, last: nat)
    requires Agrees(s) && |rcs| == MAX_NUM_FINGERS + 1 && IsLastOccupied(s.slots, last)
    ensures LastResult(s.slots, 1, rcs, 0) == 0 && Rows(DeleteFrom(s, 1, rcs).tables, s.gid) != [] <==>
      rcs[last] == 0 && exists i | 1 <= i < last :: s.slots[i].exist && rcs[i] != 0
  {
    LastResultIs(s.slots, 1, rcs, 0, last);
    DeleteFromExactly(s, 1, rcs);
    var rows, rows' := Rows(s.tables, s.gid), Rows(DeleteFrom(s, 1, rcs).tables, s.gid);
    if rows' != [] && rcs[last] == 0 {
      var r := rows'[0];
      assert r in rows' && r in rows && s.slots[r.id].exist && 1 <= r.id < last;
    }
    if i :| 1 <= i < last && s.slots[i].exist && rcs[i] != 0 {
      assert HasRow(s, i);
      var r :| r in rows && r.id == i;
      assert r in rows';
    }
  }
}
