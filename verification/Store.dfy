/**
 The slot table and the database behind it, as values: one table of rows per group, and the slots
 that mirror the table of the active group.
 */
module Store {
  import opened Slots

  datatype Row = Row(id: int, data: Template, payload: Payload)

  datatype Store = Store(slots: Table, tables: map<nat, seq<Row>>, gid: nat)

  // ----- tables

  /** `create table` fails, and changes nothing, when the table exists. */
  function Created(tables: map<nat, seq<Row>>, gid: nat): map<nat, seq<Row>> {
    if gid in tables then tables else tables[gid := []]
  }

  function Rows(tables: map<nat, seq<Row>>, gid: nat): seq<Row> {
    if gid in tables then tables[gid] else []
  }

  /** `delete ... where id = fid` */
  function Without(rows: seq<Row>, fid: int): seq<Row> {
    if rows == [] then []
    else Without(rows[..|rows| - 1], fid) + (if rows[|rows| - 1].id == fid then [] else [rows[|rows| - 1]])
  }

  lemma {:induction false} WithoutRows(rows: seq<Row>, fid: int)
    ensures forall r :: r in Without(rows, fid) <==> r in rows && r.id != fid
    ensures UniqueIds(rows) ==> UniqueIds(Without(rows, fid))
  {
    if rows != [] {
      var last := |rows| - 1;
      WithoutRows(rows[..last], fid);
      assert rows == rows[..last] + [rows[last]];
      if UniqueIds(rows) {
        assert forall i | 0 <= i < last :: rows[..last][i] == rows[i];
        forall r | r in rows[..last]
          ensures r.id != rows[last].id
        {
          var i :| 0 <= i < last && rows[..last][i] == r;
          assert rows[i] == r;
        }
      }
    }
  }

  ghost predicate UniqueIds(rows: seq<Row>) {
    forall i, j | 0 <= i < j < |rows| :: rows[i].id != rows[j].id
  }

  ghost predicate IdsInRange(rows: seq<Row>) {
    forall r | r in rows :: 1 <= r.id <= MAX_NUM_FINGERS
  }

  // ----- reading a table into the slots

  function FingerOf(row: Row): Finger {
    Finger(true, row.data, row.payload)
  }

  /** What slot i holds after the rows have been copied over `base`, in order. */
  function Loaded(rows: seq<Row>, i: int, base: Finger): Finger {
    if rows == [] then base
    else if rows[|rows| - 1].id == i then FingerOf(rows[|rows| - 1])
    else Loaded(rows[..|rows| - 1], i, base)
  }

  lemma {:induction false} LoadedRow(rows: seq<Row>, r: Row, base: Finger)
    requires UniqueIds(rows) && r in rows
    ensures Loaded(rows, r.id, base) == FingerOf(r)
  {
    var last := |rows| - 1;
    assert rows == rows[..last] + [rows[last]];
    if r != rows[last] {
      var i :| 0 <= i < last && rows[i] == r;
      assert rows[..last][i] == r;
      LoadedRow(rows[..last], r, base);
    }
  }

  lemma {:induction false} LoadedNone(rows: seq<Row>, i: int, base: Finger)
    requires forall r | r in rows :: r.id != i
    ensures Loaded(rows, i, base) == base
  {
    if rows != [] {
      assert rows[|rows| - 1] in rows;
      LoadedNone(rows[..|rows| - 1], i, base);
    }
  }

  // ----- the operations

  /** The clearing in db_read_to_tz covers slots 0 to 4 only. */
  function LoadedSlot(rows: seq<Row>, slots: Table, i: nat): Finger
    requires i <= MAX_NUM_FINGERS
  {
    Loaded(rows, i, if i < MAX_NUM_FINGERS then EMPTY else slots[i])
  }

  function LoadedSlots(rows: seq<Row>, slots: Table): Table {
    seq(MAX_NUM_FINGERS + 1, i requires 0 <= i <= MAX_NUM_FINGERS => LoadedSlot(rows, slots, i))
  }

  /** db_read_to_tz. */
  function Load(s: Store): Store {
    Store(LoadedSlots(Rows(s.tables, s.gid), s.slots), Created(s.tables, s.gid), s.gid)
  }

  function Switch(s: Store, gid: nat): Store {
    Load(Store(s.slots, s.tables, gid))
  }

  function Cleared(slots: Table, fid: nat): Table
    requires fid <= MAX_NUM_FINGERS
  {
    slots[fid := EMPTY]
  }

  function Deleted(tables: map<nat, seq<Row>>, gid: nat, fid: int): map<nat, seq<Row>> {
    if gid in tables then tables[gid := Without(tables[gid], fid)] else tables
  }

  /** db_write_to_db with remove set: the slot is cleared even when the statement fails. */
  function Delete(s: Store, fid: nat, rc: int): Store
    requires fid <= MAX_NUM_FINGERS
  {
    Store(Cleared(s.slots, fid), if rc == 0 then Deleted(s.tables, s.gid, fid) else s.tables, s.gid)
  }

  /** The end of an enrolment: the slot is filled and inserted. */
  function Save(s: Store, idx: nat, data: Template, payload: Payload): Store
    requires 1 <= idx <= MAX_NUM_FINGERS
  {
    Store(s.slots[idx := Finger(true, data, payload)],
          s.tables[s.gid := Rows(s.tables, s.gid) + [Row(idx, data, payload)]],
          s.gid)
  }

  /** The same, with an insertion that may fail unnoticed. */
  function Saved(s: Store, idx: nat, data: Template, payload: Payload, inserted: bool): Store
    requires 1 <= idx <= MAX_NUM_FINGERS
  {
    if inserted && s.gid in s.tables then Save(s, idx, data, payload)
    else Store(s.slots[idx := Finger(true, data, payload)], s.tables, s.gid)
  }

  /** Removal with fid 0: every occupied slot from idx on, each with the result of its own statement. */
  function DeleteFrom(s: Store, idx: nat, rcs: seq<int>): Store
    requires 1 <= idx <= MAX_NUM_FINGERS + 1 && |rcs| == MAX_NUM_FINGERS + 1
    decreases MAX_NUM_FINGERS + 1 - idx
  {
    if idx > MAX_NUM_FINGERS then s
    else DeleteFrom(if s.slots[idx].exist then Delete(s, idx, rcs[idx]) else s, idx + 1, rcs)
  }

  // ----- agreement of slots and table

  ghost predicate HasRow(s: Store, i: int) {
    exists r | r in Rows(s.tables, s.gid) :: r.id == i
  }

  /** Every table is well formed, as it is when the device is opened and ever after. */
  ghost predicate TablesOk(tables: map<nat, seq<Row>>) {
    forall g | g in tables :: UniqueIds(tables[g]) && IdsInRange(tables[g])
  }

  /**
   Slots 1 to 4 hold exactly the rows of the active group, byte for byte; slot 5 holds its row
   whenever there is one.
   */
  ghost predicate Agrees(s: Store) {
    && TablesOk(s.tables)
    && s.gid in s.tables
    && (forall r | r in s.tables[s.gid] :: s.slots[r.id] == FingerOf(r))
    && (forall i | 1 <= i < MAX_NUM_FINGERS :: s.slots[i].exist ==> HasRow(s, i))
  }

  lemma SwitchAgrees(s: Store, gid: nat)
    requires TablesOk(s.tables)
    ensures Agrees(Switch(s, gid))
    ensures forall g | g in s.tables :: g in Switch(s, gid).tables && Switch(s, gid).tables[g] == s.tables[g]
  {
    var s' := Switch(s, gid);
    var rows := Rows(s'.tables, gid);
    forall r | r in rows
      ensures s'.slots[r.id] == FingerOf(r)
    {
      LoadedRow(rows, r, if r.id < MAX_NUM_FINGERS then EMPTY else s.slots[r.id]);
    }
    forall i | 1 <= i < MAX_NUM_FINGERS && s'.slots[i].exist
      ensures HasRow(s', i)
    {
      if forall r | r in rows :: r.id != i {
        LoadedNone(rows, i, EMPTY);
      }
    }
  }

  /** The rows are copied in order, so the last one with an id counts. */
  lemma {:induction false} LoadedLast(rows: seq<Row>, k: nat, base: Finger)
    requires k < |rows| && forall m | k < m < |rows| :: rows[m].id != rows[k].id
    ensures Loaded(rows, rows[k].id, base) == Finger(true, rows[k].data, rows[k].payload)
  {
    if k < |rows| - 1 {
      LoadedLast(rows[..|rows| - 1], k, base);
    }
  }

  /**
   A group switch, slot by slot, whatever is in the tables: the last row of the new group with the slot's
   id; without one slots 0 to 4 are cleared, and slot 5 keeps what it had.
   */
  lemma SwitchExactly(s: Store, gid: nat)
    ensures var s', rows := Switch(s, gid), if gid in s.tables then s.tables[gid] else [];
      && s'.gid == gid && s'.tables == s.tables[gid := rows]
      && (forall k | 0 <= k < |rows| && 0 <= rows[k].id <= MAX_NUM_FINGERS ::
            (forall m | k < m < |rows| :: rows[m].id != rows[k].id) ==>
              s'.slots[rows[k].id] == Finger(true, rows[k].data, rows[k].payload))
      && (forall i | 0 <= i <= MAX_NUM_FINGERS && (forall r | r in rows :: r.id != i) ::
            if i < MAX_NUM_FINGERS then !s'.slots[i].exist else s'.slots[i] == s.slots[i])
  {
    var s', rows := Switch(s, gid), if gid in s.tables then s.tables[gid] else [];
    forall k | 0 <= k < |rows| && 0 <= rows[k].id <= MAX_NUM_FINGERS && forall m | k < m < |rows| :: rows[m].id != rows[k].id
      ensures s'.slots[rows[k].id] == Finger(true, rows[k].data, rows[k].payload)
    {
      LoadedLast(rows, k, if rows[k].id < MAX_NUM_FINGERS then EMPTY else s.slots[rows[k].id]);
    }
    forall i | 0 <= i <= MAX_NUM_FINGERS && forall r | r in rows :: r.id != i
      ensures if i < MAX_NUM_FINGERS then !s'.slots[i].exist else s'.slots[i] == s.slots[i]
    {
      LoadedNone(rows, i, if i < MAX_NUM_FINGERS then EMPTY else s.slots[i]);
    }
  }

  /**
   The last slot is not cleared: after a switch it is occupied without a row exactly when it was
   occupied before and the new group has no row for it.
   */
  lemma LastSlotAfterSwitch(s: Store, gid: nat)
    requires TablesOk(s.tables)
    ensures var s' := Switch(s, gid);
      (s'.slots[MAX_NUM_FINGERS].exist <==> HasRow(s', MAX_NUM_FINGERS)) <==>
        (s.slots[MAX_NUM_FINGERS].exist ==> HasRow(s', MAX_NUM_FINGERS))
  {
    var s' := Switch(s, gid);
    var rows := Rows(s'.tables, gid);
    SwitchAgrees(s, gid);
    if !HasRow(s', MAX_NUM_FINGERS) {
      LoadedNone(rows, MAX_NUM_FINGERS, s.slots[MAX_NUM_FINGERS]);
    }
  }

  /** Data and payload are kept as given, in the slot and in one new row, and nothing else changes. */
  lemma SavedExactly(s: Store, idx: nat, data: Template, payload: Payload, inserted: bool)
    requires 1 <= idx <= MAX_NUM_FINGERS
    ensures var s' := Saved(s, idx, data, payload, inserted);
      && s'.gid == s.gid && s'.tables.Keys == s.tables.Keys
      && s'.slots[idx].exist && s'.slots[idx].data == data && s'.slots[idx].payload == payload
      && (forall i | 0 <= i <= MAX_NUM_FINGERS && i != idx :: s'.slots[i] == s.slots[i])
      && (forall g | g in s.tables && g != s.gid :: s'.tables[g] == s.tables[g])
      && (s.gid in s.tables ==>
            s'.tables[s.gid] == s.tables[s.gid] + (if inserted then [Row(idx, data, payload)] else []))
  {
  }

  lemma SaveAgrees(s: Store, idx: nat, data: Template, payload: Payload)
    requires Agrees(s) && IsLowestFree(s.slots, idx) && idx <= MAX_NUM_FINGERS
    ensures Agrees(Save(s, idx, data, payload))
  {
    var s' := Save(s, idx, data, payload);
    var rows, row := s.tables[s.gid], Row(idx, data, payload);
    var rows' := s'.tables[s'.gid];
    forall r | r in rows
      ensures r.id != idx
    {
      assert s.slots[r.id].exist;
    }
    forall i, j | 0 <= i < j < |rows'|
      ensures rows'[i].id != rows'[j].id
    {
      assert rows'[i] == rows[i];
      if j < |rows| {
        assert rows'[j] == rows[j];
      }
    }
    forall i | 1 <= i < MAX_NUM_FINGERS && s'.slots[i].exist
      ensures HasRow(s', i)
    {
      if i == idx {
        assert rows'[|rows|] == row && row in rows';
      } else {
        var r :| r in Rows(s.tables, s.gid) && r.id == i;
        assert r in rows';
      }
    }
  }

  /** An insertion that fails goes unnoticed: slots and store then disagree unless it is the last slot. */
  lemma FailedSave(s: Store, idx: nat, data: Template, payload: Payload)
    requires Agrees(s) && IsLowestFree(s.slots, idx) && idx <= MAX_NUM_FINGERS
    ensures Agrees(Saved(s, idx, data, payload, false)) <==> idx == MAX_NUM_FINGERS
  {
    var s' := Saved(s, idx, data, payload, false);
    forall r | r in Rows(s'.tables, s'.gid)
      ensures r.id != idx && s'.slots[r.id] == FingerOf(r)
    {
      assert s.slots[r.id] == FingerOf(r);
    }
    assert !HasRow(s', idx) && s'.slots[idx].exist;
    forall i | 1 <= i < MAX_NUM_FINGERS && i != idx && s'.slots[i].exist
      ensures HasRow(s', i)
    {
      var r :| r in Rows(s.tables, s.gid) && r.id == i;
      assert r in Rows(s'.tables, s'.gid);
    }
  }

  lemma DeleteAgrees(s: Store, fid: nat)
    requires Agrees(s) && 1 <= fid <= MAX_NUM_FINGERS
    ensures Agrees(Delete(s, fid, 0))
  {
    var s' := Delete(s, fid, 0);
    WithoutRows(s.tables[s.gid], fid);
    forall i | 1 <= i < MAX_NUM_FINGERS && s'.slots[i].exist
      ensures HasRow(s', i)
    {
      var r :| r in Rows(s.tables, s.gid) && r.id == i;
      assert r in Rows(s'.tables, s'.gid);
    }
  }

  /** When the statement fails, the slot and its row disagree exactly if there was a row. */
  lemma FailedDelete(s: Store, fid: nat, rc: int)
    requires Agrees(s) && 1 <= fid <= MAX_NUM_FINGERS && rc != 0
    ensures Agrees(Delete(s, fid, rc)) <==> !HasRow(s, fid)
  {
    var s' := Delete(s, fid, rc);
    if HasRow(s, fid) {
      var r :| r in Rows(s.tables, s.gid) && r.id == fid;
      assert r in s'.tables[s'.gid] && s'.slots[r.id] != FingerOf(r);
    } else {
      forall i | 1 <= i < MAX_NUM_FINGERS && s'.slots[i].exist
        ensures HasRow(s', i)
      {
        var r :| r in Rows(s.tables, s.gid) && r.id == i;
        assert r in Rows(s'.tables, s'.gid);
      }
      forall r | r in s'.tables[s'.gid]
        ensures s'.slots[r.id] == FingerOf(r)
      {
        assert r in Rows(s.tables, s.gid);
      }
    }
  }

  lemma {:induction false} DeleteFromAgrees(s: Store, idx: nat)
    requires Agrees(s) && 1 <= idx <= MAX_NUM_FINGERS + 1
    ensures Agrees(DeleteFrom(s, idx, NoErrors()))
    decreases MAX_NUM_FINGERS + 1 - idx
  {
    if idx <= MAX_NUM_FINGERS {
      if s.slots[idx].exist {
        DeleteAgrees(s, idx);
        DeleteFromAgrees(Delete(s, idx, 0), idx + 1);
      } else {
        DeleteFromAgrees(s, idx + 1);
      }
    }
  }

  function NoErrors(): (rcs: seq<int>)
    ensures |rcs| == MAX_NUM_FINGERS + 1
  {
    seq(MAX_NUM_FINGERS + 1, _ => 0)
  }

  // ----- any sequence of operations

  datatype Operation =
    | Enrol(data: Template, payload: Payload)
    | Remove(fid: nat)
    | SetGroup(gid: nat)

  ghost predicate Possible(op: Operation) {
    op.Remove? ==> op.fid <= MAX_NUM_FINGERS
  }

  function LowestFree(slots: Table): (idx: nat)
    ensures IsLowestFree(slots, idx)
  {
    if !slots[1].exist then 1
    else if !slots[2].exist then 2
    else if !slots[3].exist then 3
    else if !slots[4].exist then 4
    else if !slots[5].exist then 5
    else 6
  }

  /** One operation without a database error; an enrolment is refused when no slot is free. */
  ghost function Perform(s: Store, op: Operation): Store
    requires Possible(op)
  {
    if op.Enrol? then
      if LowestFree(s.slots) <= MAX_NUM_FINGERS then Save(s, LowestFree(s.slots), op.data, op.payload) else s
    else if op.Remove? then
      if op.fid == 0 then DeleteFrom(s, 1, NoErrors()) else Delete(s, op.fid, 0)
    else Switch(s, op.gid)
  }

  ghost function PerformAll(s: Store, ops: seq<Operation>): Store
    requires forall op | op in ops :: Possible(op)
  {
    if ops == [] then s
    else Perform(PerformAll(s, ops[..|ops| - 1]), ops[|ops| - 1])
  }

  /** Slots and store agree after any sequence of operations, in whatever groups. */
  lemma {:induction false} AgreesAlways(s: Store, ops: seq<Operation>)
    requires Agrees(s) && forall op | op in ops :: Possible(op)
    ensures Agrees(PerformAll(s, ops))
  {
    if ops != [] {
      var before := PerformAll(s, ops[..|ops| - 1]);
      AgreesAlways(s, ops[..|ops| - 1]);
      assert Possible(ops[|ops| - 1]);
      match ops[|ops| - 1]
      case Enrol(data, payload) =>
        var idx := LowestFree(before.slots);
        assert IsLowestFree(before.slots, idx);
        if idx <= MAX_NUM_FINGERS {
          SaveAgrees(before, idx, data, payload);
        }
      case Remove(fid) =>
        if fid == 0 {
          DeleteFromAgrees(before, 1);
        } else {
          DeleteAgrees(before, fid);
        }
      case SetGroup(gid) =>
        SwitchAgrees(before, gid);
    }
  }

  /**
   Agreement, slot by slot: a row makes its slot exist with the row's bytes, ids are unique, and
   only slot 5 can exist without a row.
   */
  lemma AgreesExactly(s: Store)
    ensures Agrees(s) <==>
      && TablesOk(s.tables) && s.gid in s.tables
      && forall i | 1 <= i <= MAX_NUM_FINGERS ::
           if HasRow(s, i) then s.slots[i].exist && Row(i, s.slots[i].data, s.slots[i].payload) in s.tables[s.gid]
           else s.slots[i].exist ==> i == MAX_NUM_FINGERS
  {
  }

  // ----- slot 5 can outlive its row

  /** An open device on an empty database. */
  function NewStore(): Store {
    Store(seq(MAX_NUM_FINGERS + 1, _ => EMPTY), map[0 := []], 0)
  }

  function Enrolments(n: nat): seq<Operation> {
    if n == 0 then [] else Enrolments(n - 1) + [Enrol(ZeroData(), ZeroPayload())]
  }

  ghost predicate FilledTo(s: Store, n: nat) {
    s.gid == 0 && s.tables.Keys == {0} && forall i | 1 <= i <= MAX_NUM_FINGERS :: s.slots[i].exist <==> i <= n
  }

  lemma FillsNext(s: Store, n: nat, data: Template, payload: Payload)
    requires FilledTo(s, n) && n < MAX_NUM_FINGERS
    ensures FilledTo(Perform(s, Enrol(data, payload)), n + 1)
  {
    hide LowestFree;
    var idx := LowestFree(s.slots);
    assert IsLowestFree(s.slots, idx) && !s.slots[n + 1].exist;
  }

  lemma {:induction false} EnrolmentsFill(n: nat)
    requires n <= MAX_NUM_FINGERS
    ensures forall op | op in Enrolments(n) :: Possible(op)
    ensures FilledTo(PerformAll(NewStore(), Enrolments(n)), n)
    decreases |Enrolments(n)|
  {
    hide ZeroData, ZeroPayload, Perform, LowestFree;
    if n > 0 {
      EnrolmentsFill(n - 1);
      var ops := Enrolments(n);
      assert ops[..|ops| - 1] == Enrolments(n - 1);
      FillsNext(PerformAll(NewStore(), Enrolments(n - 1)), n - 1, ZeroData(), ZeroPayload());
    }
  }

  /** Five enrolments in one group, and a switch to another: slot 5 is still occupied, and has no row. */
  lemma SlotWithoutRow()
    ensures var ops := Enrolments(MAX_NUM_FINGERS) + [SetGroup(1)];
      && (forall op | op in ops :: Possible(op))
      && var s := PerformAll(NewStore(), ops);
         s.gid == 1 && s.slots[MAX_NUM_FINGERS].exist && !HasRow(s, MAX_NUM_FINGERS)
  {
    hide Enrolments, LowestFree;
    EnrolmentsFill(MAX_NUM_FINGERS);
    var ops := Enrolments(MAX_NUM_FINGERS) + [SetGroup(1)];
    assert ops[..|ops| - 1] == Enrolments(MAX_NUM_FINGERS);
    var before := PerformAll(NewStore(), Enrolments(MAX_NUM_FINGERS));
    LoadedNone([], MAX_NUM_FINGERS, before.slots[MAX_NUM_FINGERS]);
    assert PerformAll(NewStore(), ops) == Switch(before, 1);
  }

  // ----- removing every finger, with whatever results the statements have

  /** Slot i is one that removal with fid 0, from idx on, tries to delete. */
  predicate Removable(slots: Table, idx: nat, i: int) {
    idx <= i <= MAX_NUM_FINGERS && slots[i].exist
  }

  /** Every occupied slot is cleared; a row goes exactly when its slot was occupied and its statement succeeded. */
  lemma {:induction false} DeleteFromExactly(s: Store, idx: nat, rcs: seq<int>)
    requires 1 <= idx <= MAX_NUM_FINGERS + 1 && |rcs| == MAX_NUM_FINGERS + 1
    ensures var s' := DeleteFrom(s, idx, rcs);
      && s'.gid == s.gid && s'.tables.Keys == s.tables.Keys
      && (forall g | g in s.tables && g != s.gid :: s'.tables[g] == s.tables[g])
      && (forall i | 0 <= i <= MAX_NUM_FINGERS :: s'.slots[i] == if Removable(s.slots, idx, i) then EMPTY else s.slots[i])
      && (forall r :: r in Rows(s'.tables, s.gid) <==>
            r in Rows(s.tables, s.gid) && !(Removable(s.slots, idx, r.id) && rcs[r.id] == 0))
    decreases MAX_NUM_FINGERS + 1 - idx
  {
    if idx <= MAX_NUM_FINGERS {
      if s.slots[idx].exist {
        WithoutRows(Rows(s.tables, s.gid), idx);
        DeleteFromExactly(Delete(s, idx, rcs[idx]), idx + 1, rcs);
      } else {
        DeleteFromExactly(s, idx + 1, rcs);
      }
    }
  }

  /** When slots and store agree and no statement fails, nothing of the active group is left. */
  lemma RemoveAllEmpties(s: Store)
    requires Agrees(s)
    ensures var s' := DeleteFrom(s, 1, NoErrors());
      && (forall i | 1 <= i <= MAX_NUM_FINGERS :: !s'.slots[i].exist)
      && s'.tables == s.tables[s.gid := []]
  {
    hide DeleteFrom;
    var s' := DeleteFrom(s, 1, NoErrors());
    DeleteFromExactly(s, 1, NoErrors());
    forall r | r in s.tables[s.gid]
      ensures r !in Rows(s'.tables, s.gid)
    {
      assert s.slots[r.id] == FingerOf(r);
    }
    assert |s'.tables[s.gid]| > 0 ==> s'.tables[s.gid][0] in Rows(s'.tables, s.gid);
  }
}
