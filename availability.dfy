/** The availability ledger (`/api/availability`): the role-scoped listing of
    doctors' time slots, slot creation with an exact clash check, and removal
    of free slots. Every route runs after `authenticate`. */
module Availability {
  import opened Base
  import opened TextOrder
  import opened Query
  import opened Schema
  import Appointments

  // ---------------------------------------------------------------------------
  // GET /

  /** The query string of GET /. `doctorId` is Some(n) when `doctor_id` is a
      non-empty string whose numeric value is n; `date` is the `date` string. */
  datatype SlotQuery = SlotQuery(doctorId: Option<int>, date: Field<string>)

  /** A row of the listing: `da.*` with the doctor's name and specialization. */
  datatype SlotView = SlotView(slot: Slot, doctorName: string, specialization: string)

  /** The doctor rows whose name is the caller's account name: the only link
      between a doctor account and its doctor rows. */
  predicate OwnDoctorRow(t: Tables, caller: AuthUser, doctorId: int) {
    doctorId in t.doctors && caller.id in t.users && t.doctors[doctorId].name == t.users[caller.id].name
  }

  /** The WHERE clause of GET / for this caller and query, with the join on
      doctors. A doctor sees every slot of their own doctor rows, anyone else
      only free slots. */
  predicate SlotListed(t: Tables, caller: AuthUser, q: SlotQuery, s: Slot) {
    && s.doctorId in t.doctors
    && (if caller.role.Doctor? then OwnDoctorRow(t, caller, s.doctorId) else !s.isBooked)
    && (q.doctorId.Some? ==> s.doctorId == q.doctorId.value)
    && (TruthyStr(q.date) ==> s.date == q.date.value)
  }

  function SlotKey(s: Slot): seq<string> {
    [s.date, s.startTime]
  }

  function ViewOf(t: Tables, s: Slot): SlotView {
    if s.doctorId in t.doctors then SlotView(s, t.doctors[s.doctorId].name, t.doctors[s.doctorId].specialization)
    else SlotView(s, "", "")
  }

  function ListedIds(t: Tables, caller: AuthUser, q: SlotQuery): set<int> {
    set k | k in t.slots && SlotListed(t, caller, q, t.slots[k])
  }

  function ListedRows(t: Tables, caller: AuthUser, q: SlotQuery): (rows: seq<Slot>)
    requires WellFormed(t)
    ensures forall x :: x in rows ==> x.id in t.slots && t.slots[x.id] == x && SlotListed(t, caller, q, x)
    ensures forall k :: k in t.slots && SlotListed(t, caller, q, t.slots[k]) ==> t.slots[k] in rows
    ensures |rows| == |ListedIds(t, caller, q)|
    ensures SortedByKey(rows, SlotKey, false)
  {
    var keep := (s: Slot) => SlotListed(t, caller, q, s);
    var rows := SelectSorted(t.slots, t.slotSeq, (s: Slot) => s.id, keep, SlotKey, false);
    assert SelectedKeys(t.slots, keep) == ListedIds(t, caller, q);
    rows
  }

  /** GET /: the listed slots, by date and then start time. */
  function List(t: Tables, caller: AuthUser, q: SlotQuery): (r: seq<SlotView>)
    requires WellFormed(t)
    ensures forall v :: v in r ==>
      v.slot.id in t.slots && t.slots[v.slot.id] == v.slot && SlotListed(t, caller, q, v.slot) && v == ViewOf(t, v.slot)
    ensures forall k :: k in t.slots && SlotListed(t, caller, q, t.slots[k]) ==> ViewOf(t, t.slots[k]) in r
    ensures |r| == |ListedIds(t, caller, q)|
    ensures forall i, j :: 0 <= i < j < |r| ==>
      StrLe(r[i].slot.date, r[j].slot.date) &&
      (r[i].slot.date == r[j].slot.date ==> StrLe(r[i].slot.startTime, r[j].slot.startTime))
  {
    var rows := ListedRows(t, caller, q);
    var r := Mapped(rows, x => ViewOf(t, x));
    ListViews(t, rows, r);
    r
  }

  lemma ListViews(t: Tables, rows: seq<Slot>, r: seq<SlotView>)
    requires |r| == |rows| && forall i :: 0 <= i < |rows| ==> r[i] == ViewOf(t, rows[i])
    requires SortedByKey(rows, SlotKey, false)
    ensures forall v :: v in r ==> v.slot in rows && v == ViewOf(t, v.slot)
    ensures forall x :: x in rows ==> ViewOf(t, x) in r
    ensures forall i, j :: 0 <= i < j < |r| ==>
      StrLe(r[i].slot.date, r[j].slot.date) &&
      (r[i].slot.date == r[j].slot.date ==> StrLe(r[i].slot.startTime, r[j].slot.startTime))
  {
    forall i, j | 0 <= i < j < |r|
      ensures StrLe(r[i].slot.date, r[j].slot.date) &&
        (r[i].slot.date == r[j].slot.date ==> StrLe(r[i].slot.startTime, r[j].slot.startTime))
    {
      assert Before(SlotKey(rows[i]), SlotKey(rows[j]), false);
      KeyLePair(rows[i].date, rows[i].startTime, rows[j].date, rows[j].startTime);
    }
    forall v | v in r ensures v.slot in rows && v == ViewOf(t, v.slot) {
      var i :| 0 <= i < |r| && r[i] == v;
    }
    forall x | x in rows ensures ViewOf(t, x) in r {
      var i :| 0 <= i < |rows| && rows[i] == x;
      assert r[i] == ViewOf(t, x);
    }
  }

  /** Callers other than doctors never see a booked slot. */
  lemma NonDoctorsSeeOnlyFreeSlots(t: Tables, caller: AuthUser, q: SlotQuery)
    requires WellFormed(t) && !caller.role.Doctor?
    ensures forall v :: v in List(t, caller, q) ==> !v.slot.isBooked
  {
  }

  /** A doctor sees every slot of their own doctor rows that the filters keep,
      booked or not. */
  lemma DoctorsSeeOwnSlots(t: Tables, caller: AuthUser, q: SlotQuery, k: int)
    requires WellFormed(t) && caller.role.Doctor?
    requires k in t.slots && OwnDoctorRow(t, caller, t.slots[k].doctorId)
    requires q.doctorId.Some? ==> t.slots[k].doctorId == q.doctorId.value
    requires TruthyStr(q.date) ==> t.slots[k].date == q.date.value
    ensures ViewOf(t, t.slots[k]) in List(t, caller, q)
  {
  }

  // ---------------------------------------------------------------------------
  // POST /

  datatype SlotRequest = SlotRequest(doctorId: Field<int>, date: Field<string>, startTime: Field<string>, endTime: Field<string>)

  predicate MayManageSlots(caller: AuthUser) {
    caller.role.Doctor? || caller.role.Admin?
  }

  /** A slot of this doctor already starts at this date and time. */
  predicate Clash(t: Tables, doctorId: int, date: string, startTime: string) {
    exists k :: k in t.slots && t.slots[k].doctorId == doctorId && t.slots[k].date == date && t.slots[k].startTime == startTime
  }

  /** No two slots share a (doctor, date, start time) triple. */
  ghost predicate NoDuplicateSlots(t: Tables) {
    forall a, b :: a in t.slots && b in t.slots && a != b ==>
      !(t.slots[a].doctorId == t.slots[b].doctorId && t.slots[a].date == t.slots[b].date &&
        t.slots[a].startTime == t.slots[b].startTime)
  }

  function CreateSpec(t: Tables, caller: AuthUser, req: SlotRequest): (o: Outcome<Slot>)
    ensures o.response.Failure? ==> o.after == t
    ensures o.response == Failure(403, "Only doctors can create availability slots") <==> !MayManageSlots(caller)
    ensures o.response == Failure(400, "doctor_id, date, start_time, end_time are required") <==>
      MayManageSlots(caller) &&
      !(TruthyInt(req.doctorId) && TruthyStr(req.date) && TruthyStr(req.startTime) && TruthyStr(req.endTime))
    ensures o.response.Success? ==>
      && TruthyInt(req.doctorId) && req.doctorId.value in t.doctors
      && o.response == Success(201, Slot(t.slotSeq + 1, req.doctorId.value, req.date.value,
                                         req.startTime.value, req.endTime.value, false))
      && !Clash(t, req.doctorId.value, req.date.value, req.startTime.value)
      && o.after == t.(slots := t.slots[t.slotSeq + 1 := o.response.body], slotSeq := t.slotSeq + 1)
    ensures o.response == Failure(404, "Doctor not found") <==>
      && MayManageSlots(caller)
      && TruthyInt(req.doctorId) && TruthyStr(req.date) && TruthyStr(req.startTime) && TruthyStr(req.endTime)
      && req.doctorId.value !in t.doctors
    ensures o.response == Failure(409, "A slot already exists at that time") <==>
      && MayManageSlots(caller)
      && TruthyInt(req.doctorId) && TruthyStr(req.date) && TruthyStr(req.startTime) && TruthyStr(req.endTime)
      && req.doctorId.value in t.doctors
      && Clash(t, req.doctorId.value, req.date.value, req.startTime.value)
    ensures o.response.Success? <==>
      && MayManageSlots(caller)
      && TruthyInt(req.doctorId) && TruthyStr(req.date) && TruthyStr(req.startTime) && TruthyStr(req.endTime)
      && req.doctorId.value in t.doctors
      && !Clash(t, req.doctorId.value, req.date.value, req.startTime.value)
  {
    if !MayManageSlots(caller) then
      Outcome(Failure(403, "Only doctors can create availability slots"), t)
    else if !(TruthyInt(req.doctorId) && TruthyStr(req.date) && TruthyStr(req.startTime) && TruthyStr(req.endTime)) then
      Outcome(Failure(400, "doctor_id, date, start_time, end_time are required"), t)
    else if req.doctorId.value !in t.doctors then
      Outcome(Failure(404, "Doctor not found"), t)
    else if Clash(t, req.doctorId.value, req.date.value, req.startTime.value) then
      Outcome(Failure(409, "A slot already exists at that time"), t)
    else
      var slot := Slot(t.slotSeq + 1, req.doctorId.value, req.date.value, req.startTime.value, req.endTime.value, false);
      Outcome(Success(201, slot), t.(slots := t.slots[slot.id := slot], slotSeq := slot.id))
  }

  method Create(db: Database, caller: AuthUser, req: SlotRequest) returns (res: Response<Slot>)
    modifies db
    ensures Outcome(res, db.Snapshot()) == CreateSpec(old(db.Snapshot()), caller, req)
  {
    if !MayManageSlots(caller) {
      return Failure(403, "Only doctors can create availability slots");
    }
    if !(TruthyInt(req.doctorId) && TruthyStr(req.date) && TruthyStr(req.startTime) && TruthyStr(req.endTime)) {
      return Failure(400, "doctor_id, date, start_time, end_time are required");
    }
    if req.doctorId.value !in db.doctors {
      return Failure(404, "Doctor not found");
    }
    if Clash(db.Snapshot(), req.doctorId.value, req.date.value, req.startTime.value) {
      return Failure(409, "A slot already exists at that time");
    }
    var slot := Slot(db.slotSeq + 1, req.doctorId.value, req.date.value, req.startTime.value, req.endTime.value, false);
    db.InsertSlotRow(slot);
    res := Success(201, slot);
  }

  /** POST / never creates a second slot with the same (doctor, date, start
      time), and keeps the store well formed. */
  lemma CreateKeepsNoDuplicates(t: Tables, caller: AuthUser, req: SlotRequest)
    requires WellFormed(t) && NoDuplicateSlots(t)
    ensures WellFormed(CreateSpec(t, caller, req).after)
    ensures NoDuplicateSlots(CreateSpec(t, caller, req).after)
  {
    var o := CreateSpec(t, caller, req);
    if o.response.Success? {
      var t' := o.after;
      var n := o.response.body;
      forall a, b | a in t'.slots && b in t'.slots && a != b
        ensures !(t'.slots[a].doctorId == t'.slots[b].doctorId && t'.slots[a].date == t'.slots[b].date &&
                  t'.slots[a].startTime == t'.slots[b].startTime)
      {
        if a == n.id {
          assert b in t.slots;
        } else if b == n.id {
          assert a in t.slots;
        }
      }
    }
  }

  /** POST / keeps every slot reference resolvable and slot/appointment
      duality: the foreign key on `availability_id` means no appointment can
      already hold the id the new slot receives. */
  lemma CreateKeepsDuality(t: Tables, caller: AuthUser, req: SlotRequest)
    requires WellFormed(t) && Appointments.Duality(t) && SlotRefsResolve(t)
    ensures Appointments.Duality(CreateSpec(t, caller, req).after)
    ensures SlotRefsResolve(CreateSpec(t, caller, req).after)
  {
    var o := CreateSpec(t, caller, req);
    if o.response.Success? {
      var t' := o.after;
      var n := o.response.body;
      forall s | s in t'.slots
        ensures |Appointments.Refs(t', s)| <= 1 && (t'.slots[s].isBooked <==> |Appointments.Refs(t', s)| == 1)
      {
        assert Appointments.Refs(t', s) == Appointments.Refs(t, s);
        if s == n.id {
          forall a | a in t.appointments ensures t.appointments[a].availabilityId != Some(s) {
          }
          assert Appointments.Refs(t, s) == {};
        }
      }
    }
  }

  // ---------------------------------------------------------------------------
  // DELETE /:id

  /** The DELETE, with the ON DELETE SET NULL of `appointments.availability_id`:
      an appointment that still named the slot loses its reference. */
  function DeleteSpec(t: Tables, caller: AuthUser, id: int): (o: Outcome<string>)
    ensures o.response.Failure? ==> o.after == t
    ensures o.response == Failure(403, "Only doctors/admins can remove slots") <==> !MayManageSlots(caller)
    ensures o.response == Failure(404, "Slot not found") <==> MayManageSlots(caller) && id !in t.slots
    ensures o.response == Failure(409, "Cannot delete a booked slot") <==>
      MayManageSlots(caller) && id in t.slots && t.slots[id].isBooked
    ensures o.response.Success? <==> MayManageSlots(caller) && id in t.slots && !t.slots[id].isBooked
    ensures o.response.Success? ==>
      && o.response == Success(200, "Slot deleted")
      && o.after.slots == t.slots - {id}
      && o.after == t.(slots := o.after.slots, appointments := o.after.appointments)
      && o.after.appointments.Keys == t.appointments.Keys
      && (forall k :: k in t.appointments && t.appointments[k].availabilityId != Some(id) ==>
            o.after.appointments[k] == t.appointments[k])
      && (forall k :: k in t.appointments && t.appointments[k].availabilityId == Some(id) ==>
            o.after.appointments[k] == t.appointments[k].(availabilityId := None))
  {
    if !MayManageSlots(caller) then
      Outcome(Failure(403, "Only doctors/admins can remove slots"), t)
    else if id !in t.slots then
      Outcome(Failure(404, "Slot not found"), t)
    else if t.slots[id].isBooked then
      Outcome(Failure(409, "Cannot delete a booked slot"), t)
    else
      Outcome(Success(200, "Slot deleted"), SlotRemoved(t, id))
  }

  method Delete(db: Database, caller: AuthUser, id: int) returns (res: Response<string>)
    modifies db
    ensures Outcome(res, db.Snapshot()) == DeleteSpec(old(db.Snapshot()), caller, id)
  {
    if !MayManageSlots(caller) {
      return Failure(403, "Only doctors/admins can remove slots");
    }
    if id !in db.slots {
      return Failure(404, "Slot not found");
    }
    if db.slots[id].isBooked {
      return Failure(409, "Cannot delete a booked slot");
    }
    // the DELETE and the SET NULL it triggers
    var r := SlotRemoved(db.Snapshot(), id);
    db.slots, db.appointments := r.slots, r.appointments;
    res := Success(200, "Slot deleted");
  }

  /** Removing a free slot keeps duality: under duality nothing refers to it,
      so the SET NULL changes no appointment. */
  lemma DeleteKeepsDuality(t: Tables, caller: AuthUser, id: int)
    requires Appointments.Duality(t)
    ensures Appointments.Duality(DeleteSpec(t, caller, id).after)
  {
    var o := DeleteSpec(t, caller, id);
    if o.response.Success? {
      var t' := o.after;
      Appointments.NoRefs(t, id);
      forall k | k in t.appointments ensures t'.appointments[k] == t.appointments[k] {
        assert k !in Appointments.Refs(t, id);
      }
      assert t'.appointments == t.appointments;
      forall s | s in t'.slots
        ensures |Appointments.Refs(t', s)| <= 1 && (t'.slots[s].isBooked <==> |Appointments.Refs(t', s)| == 1)
      {
        assert Appointments.Refs(t', s) == Appointments.Refs(t, s);
      }
    }
  }

  /** Whatever the flags say, the SET NULL leaves no appointment naming the
      deleted slot, so every slot reference still resolves. */
  lemma DeleteKeepsSlotRefs(t: Tables, caller: AuthUser, id: int)
    requires SlotRefsResolve(t)
    ensures SlotRefsResolve(DeleteSpec(t, caller, id).after)
  {
    var o := DeleteSpec(t, caller, id);
    if o.response.Success? {
      var t' := o.after;
      forall a | a in t'.appointments ensures SlotRefOk(t', t'.appointments[a].availabilityId) {
        assert SlotRefOk(t, t.appointments[a].availabilityId);
      }
    }
  }
}
