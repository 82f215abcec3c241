/** The booking service (`/api/appointments`): listing and reading
    appointments with their owner check, and creating, rescheduling and
    cancelling them while flipping the booked flag of the linked availability
    slot. Every route runs after `authenticate`, so the caller is known. */
module Appointments {
  import opened Base
  import opened TextOrder
  import opened Query
  import opened Schema

  predicate IsPatient(caller: AuthUser) {
    caller.role.Patient?
  }

  predicate IsAdminOrDoctor(caller: AuthUser) {
    caller.role.Admin? || caller.role.Doctor?
  }

  // ---------------------------------------------------------------------------
  // The slot flag and the duality invariant

  /** `setSlotBooked`: nothing for a falsy id, otherwise an UPDATE of the flag
      of the slot with that id, which touches no row when there is none. */
  function SlotBooked(t: Tables, slotId: Option<int>, booked: bool): (t': Tables)
    ensures t' == t.(slots := t'.slots)
    ensures t'.slots.Keys == t.slots.Keys
    ensures forall s :: s in t.slots ==>
      t'.slots[s] == if slotId == Some(s) && s != 0 then t.slots[s].(isBooked := booked) else t.slots[s]
  {
    if slotId.None? || slotId.value == 0 || slotId.value !in t.slots then t
    else t.(slots := t.slots[slotId.value := t.slots[slotId.value].(isBooked := booked)])
  }

  method SetSlotBooked(db: Database, slotId: Option<int>, booked: bool)
    modifies db
    ensures db.Snapshot() == SlotBooked(old(db.Snapshot()), slotId, booked)
  {
    if slotId.None? || slotId.value == 0 {
      return;
    }
    if slotId.value in db.slots {
      db.slots := db.slots[slotId.value := db.slots[slotId.value].(isBooked := booked)];
    }
  }

  /** The ids of the appointments that reference slot s. */
  function Refs(t: Tables, s: int): set<int> {
    set a | a in t.appointments && t.appointments[a].availabilityId == Some(s)
  }

  /** Slot/appointment duality: no slot is referenced by two appointments, and
      a slot is booked exactly when one appointment references it. */
  ghost predicate Duality(t: Tables) {
    forall s :: s in t.slots ==> |Refs(t, s)| <= 1 && (t.slots[s].isBooked <==> |Refs(t, s)| == 1)
  }

  lemma RefsAfterPut(t: Tables, t': Tables, id: int, a: Appointment, s: int)
    requires t'.appointments == t.appointments[id := a]
    ensures Refs(t', s) == (Refs(t, s) - {id}) + (if a.availabilityId == Some(s) then {id} else {})
  {
  }

  lemma RefsAfterRemove(t: Tables, t': Tables, id: int, s: int)
    requires t'.appointments == t.appointments - {id}
    ensures Refs(t', s) == Refs(t, s) - {id}
  {
  }

  /** Under duality, the appointment that references an existing slot is the
      only one that does, and the slot is booked. */
  lemma OnlyRef(t: Tables, s: int, id: int)
    requires Duality(t) && s in t.slots
    requires id in t.appointments && t.appointments[id].availabilityId == Some(s)
    ensures Refs(t, s) == {id} && t.slots[s].isBooked
  {
    var r := Refs(t, s);
    assert id in r;
    assert |r - {id}| == |r| - 1;
    assert r - {id} == {};
  }

  /** Under duality, a free slot is referenced by no appointment. */
  lemma NoRefs(t: Tables, s: int)
    requires Duality(t) && s in t.slots && !t.slots[s].isBooked
    ensures Refs(t, s) == {}
  {
  }

  // ---------------------------------------------------------------------------
  // Reads

  /** A row of the appointment queries: `a.*`, the doctor's name and
      `COALESCE(p.name, u.name)`. */
  datatype AppointmentView = AppointmentView(appt: Appointment, doctorName: string, patientName: Option<string>)

  /** The patient's name, or else the booking account's name, or else null. */
  function PatientName(t: Tables, a: Appointment): Option<string> {
    if a.patientId.Some? && a.patientId.value in t.patients then Some(t.patients[a.patientId.value].name)
    else if a.userId.Some? && a.userId.value in t.users then Some(t.users[a.userId.value].name)
    else None
  }

  /** The joined row of a listed appointment (the join guarantees the doctor). */
  function ViewOf(t: Tables, a: Appointment): AppointmentView {
    AppointmentView(a, if a.doctorId in t.doctors then t.doctors[a.doctorId].name else "", PatientName(t, a))
  }

  /** The rows GET / returns to this caller: the inner join on doctors keeps
      only appointments whose doctor exists, and a patient sees only the
      appointments their own account booked. */
  predicate Listed(t: Tables, caller: AuthUser, a: Appointment) {
    a.doctorId in t.doctors && (IsPatient(caller) ==> a.userId == Some(caller.id))
  }

  /** The ORDER BY key of GET /: `a.date DESC`. */
  function DateKey(a: Appointment): seq<string> {
    [a.date]
  }

  /** The ids of the appointments GET / returns to this caller. */
  function ListedIds(t: Tables, caller: AuthUser): set<int> {
    set k | k in t.appointments && Listed(t, caller, t.appointments[k])
  }

  /** The appointment rows GET / selects, latest date first. */
  function ListedRows(t: Tables, caller: AuthUser): (rows: seq<Appointment>)
    requires WellFormed(t)
    ensures forall x :: x in rows ==>
      x.id in t.appointments && t.appointments[x.id] == x && Listed(t, caller, x)
    ensures forall k :: k in t.appointments && Listed(t, caller, t.appointments[k]) ==> t.appointments[k] in rows
    ensures |rows| == |ListedIds(t, caller)|
    ensures SortedByKey(rows, DateKey, true)
  {
    var keep := (a: Appointment) => Listed(t, caller, a);
    var rows := SelectSorted(t.appointments, t.appointmentSeq, (a: Appointment) => a.id, keep, DateKey, true);
    assert SelectedKeys(t.appointments, keep) == ListedIds(t, caller);
    rows
  }

  /** GET /: the listed appointments, latest date first. */
  function List(t: Tables, caller: AuthUser): (r: seq<AppointmentView>)
    requires WellFormed(t)
    ensures forall v :: v in r ==>
      v.appt.id in t.appointments && t.appointments[v.appt.id] == v.appt &&
      Listed(t, caller, v.appt) && v == ViewOf(t, v.appt)
    ensures forall k :: k in t.appointments && Listed(t, caller, t.appointments[k]) ==>
      ViewOf(t, t.appointments[k]) in r
    ensures |r| == |ListedIds(t, caller)|
    ensures forall i, j :: 0 <= i < j < |r| ==> StrLe(r[j].appt.date, r[i].appt.date)
  {
    var rows := ListedRows(t, caller);
    var r := Mapped(rows, x => ViewOf(t, x));
    ListViews(t, caller, rows, r);
    r
  }

  lemma ListViews(t: Tables, caller: AuthUser, rows: seq<Appointment>, r: seq<AppointmentView>)
    requires forall i :: 0 <= i < |rows| ==> Listed(t, caller, rows[i])
    requires |r| == |rows| && forall i :: 0 <= i < |rows| ==> r[i] == ViewOf(t, rows[i])
    requires SortedByKey(rows, DateKey, true)
    ensures forall v :: v in r ==> v.appt in rows && Listed(t, caller, v.appt) && v == ViewOf(t, v.appt)
    ensures forall x :: x in rows ==> ViewOf(t, x) in r
    ensures forall i, j :: 0 <= i < j < |r| ==> StrLe(r[j].appt.date, r[i].appt.date)
  {
    forall i, j | 0 <= i < j < |r| ensures StrLe(r[j].appt.date, r[i].appt.date) {
      assert Before(DateKey(rows[i]), DateKey(rows[j]), true);
      KeyLeSingle(r[j].appt.date, r[i].appt.date);
    }
    forall v | v in r ensures v.appt in rows && Listed(t, caller, v.appt) && v == ViewOf(t, v.appt) {
      var i :| 0 <= i < |r| && r[i] == v;
      assert v.appt == rows[i];
    }
    forall x | x in rows ensures ViewOf(t, x) in r {
      var i :| 0 <= i < |rows| && rows[i] == x;
      assert r[i] == ViewOf(t, x);
    }
  }

  /** GET /:id. */
  function Get(t: Tables, caller: AuthUser, id: int): (r: Response<AppointmentView>)
    ensures r.Failure? && r.status == 404 <==> id !in t.appointments || t.appointments[id].doctorId !in t.doctors
    ensures r.Failure? && r.status == 403 <==>
      id in t.appointments && t.appointments[id].doctorId in t.doctors &&
      IsPatient(caller) && t.appointments[id].userId != Some(caller.id)
    ensures r.Success? ==>
      id in t.appointments && Listed(t, caller, t.appointments[id]) && r == Success(200, ViewOf(t, t.appointments[id]))
  {
    if id !in t.appointments || t.appointments[id].doctorId !in t.doctors then
      Failure(404, "Appointment not found")
    else if IsPatient(caller) && t.appointments[id].userId != Some(caller.id) then
      Failure(403, "Access denied")
    else
      Success(200, ViewOf(t, t.appointments[id]))
  }

  // ---------------------------------------------------------------------------
  // POST /

  /** The JSON body of POST /; a field the client left out is Undefined. */
  datatype CreateRequest = CreateRequest(
    doctorId: Field<int>, date: Field<string>, status: Field<string>,
    availabilityId: Field<int>, patientId: Field<int>)

  /** The appointment POST / inserts under `id`. */
  function NewAppointment(caller: AuthUser, req: CreateRequest, id: int): Appointment
    requires req.doctorId.Given? && req.date.Given?
  {
    Appointment(
      id,
      if IsAdminOrDoctor(caller) then req.patientId.ToColumn() else None,
      Some(caller.id),
      req.doctorId.value,
      req.availabilityId.ToColumn(),
      req.date.value,
      if TruthyStr(req.status) then req.status.value else "scheduled")
  }

  /** The engine accepts the INSERT of POST /: the status passes the CHECK,
      and the patient, the booking account, the doctor and the slot the row
      names all exist (each foreign key holds; NULL always does). */
  predicate InsertAccepted(t: Tables, a: Appointment) {
    && AppointmentStatusOk(a.status)
    && PatientRefOk(t, a.patientId) && UserRefOk(t, a.userId)
    && a.doctorId in t.doctors && SlotRefOk(t, a.availabilityId)
  }

  /** POST / passes its field and doctor checks. */
  predicate CreateFieldsOk(t: Tables, req: CreateRequest) {
    TruthyInt(req.doctorId) && TruthyStr(req.date) && req.doctorId.value in t.doctors
  }

  /** POST / passes its slot checks: no truthy slot id, or a free slot under it. */
  predicate SlotFree(t: Tables, req: CreateRequest) {
    TruthyInt(req.availabilityId) ==>
      req.availabilityId.value in t.slots && !t.slots[req.availabilityId.value].isBooked
  }

  function CreateSpec(t: Tables, caller: AuthUser, req: CreateRequest): (o: Outcome<Appointment>)
    requires WellFormed(t)
    ensures o.response.Failure? ==> o.after == t
    ensures o.response == Failure(400, "doctor_id and date are required")
        <==> !TruthyInt(req.doctorId) || !TruthyStr(req.date)
    ensures o.response == Failure(404, "Doctor not found")
        <==> TruthyInt(req.doctorId) && TruthyStr(req.date) && req.doctorId.value !in t.doctors
    ensures o.response == Failure(404, "Availability slot not found")
        <==> CreateFieldsOk(t, req) && TruthyInt(req.availabilityId) && req.availabilityId.value !in t.slots
    ensures o.response == Failure(409, "That slot is already booked")
        <==> CreateFieldsOk(t, req) && TruthyInt(req.availabilityId) && req.availabilityId.value in t.slots
             && t.slots[req.availabilityId.value].isBooked
    ensures o.response == Failure(500, INTERNAL_ERROR)
        <==> CreateFieldsOk(t, req) && SlotFree(t, req)
             && !InsertAccepted(t, NewAppointment(caller, req, t.appointmentSeq + 1))
    ensures o.response.Success?
        <==> CreateFieldsOk(t, req) && SlotFree(t, req)
             && InsertAccepted(t, NewAppointment(caller, req, t.appointmentSeq + 1))
    ensures o.response.Success? ==>
      && InsertAccepted(t, o.response.body)
      && o.response.body.doctorId == req.doctorId.value && o.response.body.date == req.date.value
  {
    if !TruthyInt(req.doctorId) || !TruthyStr(req.date) then
      Outcome(Failure(400, "doctor_id and date are required"), t)
    else if req.doctorId.value !in t.doctors then
      Outcome(Failure(404, "Doctor not found"), t)
    else if TruthyInt(req.availabilityId) && req.availabilityId.value !in t.slots then
      Outcome(Failure(404, "Availability slot not found"), t)
    else if TruthyInt(req.availabilityId) && t.slots[req.availabilityId.value].isBooked then
      Outcome(Failure(409, "That slot is already booked"), t)
    else
      var created := NewAppointment(caller, req, t.appointmentSeq + 1);
      if !InsertAccepted(t, created) then
        // the CHECK on status or a foreign key rejects the INSERT, which throws
        Outcome(Failure(500, INTERNAL_ERROR), t)
      else
        var inserted := t.(appointments := t.appointments[created.id := created], appointmentSeq := created.id);
        Outcome(Success(201, created), SlotBooked(inserted, req.availabilityId.ToColumn(), true))
  }

  method Create(db: Database, caller: AuthUser, req: CreateRequest) returns (res: Response<Appointment>)
    requires db.Valid()
    modifies db
    ensures Outcome(res, db.Snapshot()) == CreateSpec(old(db.Snapshot()), caller, req)
  {
    if !TruthyInt(req.doctorId) || !TruthyStr(req.date) {
      return Failure(400, "doctor_id and date are required");
    }
    if req.doctorId.value !in db.doctors {
      return Failure(404, "Doctor not found");
    }
    if TruthyInt(req.availabilityId) {
      var slotId := req.availabilityId.value;
      if slotId !in db.slots {
        return Failure(404, "Availability slot not found");
      }
      if db.slots[slotId].isBooked {
        return Failure(409, "That slot is already booked");
      }
    }
    var created := NewAppointment(caller, req, db.appointmentSeq + 1);
    if !InsertAccepted(db.Snapshot(), created) {
      return Failure(500, INTERNAL_ERROR);
    }
    db.InsertAppointmentRow(created);
    SetSlotBooked(db, req.availabilityId.ToColumn(), true);
    res := Success(201, created);
  }

  /** A successful POST / inserts exactly one appointment owned by the caller,
      books the chosen slot and changes nothing else. */
  lemma CreateEffect(t: Tables, caller: AuthUser, req: CreateRequest)
    requires WellFormed(t)
    ensures var o := CreateSpec(t, caller, req);
      o.response.Success? ==>
        var a := o.response.body;
        && o.response.status == 201
        && a.id == t.appointmentSeq + 1 && a.id !in t.appointments
        && a.userId == Some(caller.id)
        && a.doctorId == req.doctorId.value && a.date == req.date.value
        && a.patientId == (if IsAdminOrDoctor(caller) then req.patientId.ToColumn() else None)
        && a.status == (if TruthyStr(req.status) then req.status.value else "scheduled")
        && a.availabilityId == req.availabilityId.ToColumn()
        && o.after.appointments == t.appointments[a.id := a]
        && o.after.slots.Keys == t.slots.Keys
        && (forall s :: s in t.slots ==>
              o.after.slots[s] == if a.availabilityId == Some(s) then t.slots[s].(isBooked := true) else t.slots[s])
        && o.after == t.(appointments := o.after.appointments, appointmentSeq := a.id, slots := o.after.slots)
  {
    var o := CreateSpec(t, caller, req);
    if o.response.Success? {
      var a := NewAppointment(caller, req, t.appointmentSeq + 1);
      var inserted := t.(appointments := t.appointments[a.id := a], appointmentSeq := a.id);
      assert o == Outcome(Success(201, a), SlotBooked(inserted, a.availabilityId, true));
    }
  }

  /** POST / keeps the store well formed. */
  lemma CreateKeepsWellFormed(t: Tables, caller: AuthUser, req: CreateRequest)
    requires WellFormed(t)
    ensures WellFormed(CreateSpec(t, caller, req).after)
  {
    var o := CreateSpec(t, caller, req);
    if o.response.Success? {
      var t' := o.after;
      CreateEffect(t, caller, req);
      forall s | s in t'.slots ensures 1 <= s <= t'.slotSeq && t'.slots[s].id == s {
        assert t'.slots[s].id == t.slots[s].id;
      }
    }
  }

  /** Adding a new appointment that books a free slot (or none) keeps
      duality. */
  lemma BookKeepsDuality(t: Tables, t': Tables, a: Appointment)
    requires Duality(t) && a.id !in t.appointments
    requires t'.appointments == t.appointments[a.id := a] && t'.slots.Keys == t.slots.Keys
    requires forall s :: s in t.slots ==>
      t'.slots[s] == if a.availabilityId == Some(s) then t.slots[s].(isBooked := true) else t.slots[s]
    requires a.availabilityId.Some? && a.availabilityId.value in t.slots ==> !t.slots[a.availabilityId.value].isBooked
    ensures Duality(t')
  {
    forall s | s in t'.slots
      ensures |Refs(t', s)| <= 1 && (t'.slots[s].isBooked <==> |Refs(t', s)| == 1)
    {
      RefsAfterPut(t, t', a.id, a, s);
      assert a.id !in Refs(t, s);
      if a.availabilityId == Some(s) {
        NoRefs(t, s);
        assert Refs(t', s) == {a.id};
      } else {
        assert Refs(t', s) == Refs(t, s);
      }
    }
  }

  /** POST / keeps slot/appointment duality. */
  lemma CreateKeepsDuality(t: Tables, caller: AuthUser, req: CreateRequest)
    requires WellFormed(t) && Duality(t)
    ensures Duality(CreateSpec(t, caller, req).after)
  {
    var o := CreateSpec(t, caller, req);
    if o.response.Success? {
      CreateEffect(t, caller, req);
      BookKeepsDuality(t, o.after, o.response.body);
    }
  }

  // ---------------------------------------------------------------------------
  // PUT /:id

  datatype UpdateRequest = UpdateRequest(
    patientId: Field<int>, doctorId: Field<int>, date: Field<string>,
    status: Field<string>, availabilityId: Field<int>)

  /** `availability_id !== undefined && availability_id !== existing.availability_id`
      (null equals only null). */
  predicate SlotChanging(f: Field<int>, current: Option<int>) {
    match f
    case Undefined => false
    case Null => current.Some?
    case Given(v) => current != Some(v)
  }

  /** The slot exchange both paths of PUT perform when the slot changes:
      free the old slot, then book the new one when its id is truthy. The
      patient path checks the new slot in between (see UpdateSpec). */
  function ExchangeSlots(t: Tables, current: Option<int>, f: Field<int>): (r: Tables)
    ensures r == t.(slots := r.slots) && r.slots.Keys == t.slots.Keys
  {
    var freed := SlotBooked(t, current, false);
    if TruthyInt(f) then SlotBooked(freed, Some(f.value), true) else freed
  }

  /** The `status` field passes the handler's check: absent, or a value the
      CHECK allows (an explicit null is refused). */
  predicate StatusFieldOk(f: Field<string>) {
    f == Undefined || (f.Given? && AppointmentStatusOk(f.value))
  }

  /** The row PUT's UPDATE writes. The patient path sets the date and
      `availability_id ?? existing` (it runs only with a truthy date); the
      staff path sets each column to its field `?? existing`. */
  function UpdatedRow(caller: AuthUser, existing: Appointment, req: UpdateRequest): Appointment {
    if IsPatient(caller) then
      existing.(date := req.date.Or(existing.date),
                availabilityId := req.availabilityId.OrColumn(existing.availabilityId))
    else
      existing.(
        patientId := req.patientId.OrColumn(existing.patientId),
        doctorId := req.doctorId.Or(existing.doctorId),
        availabilityId := req.availabilityId.OrColumn(existing.availabilityId),
        date := req.date.Or(existing.date),
        status := req.status.Or(existing.status))
  }

  /** The engine accepts PUT's UPDATE writing row a: the foreign keys of the
      columns the statement sets resolve (only `availability_id` on the
      patient path), and on the staff path, which also sets `status`, the
      CHECK holds. */
  predicate UpdateAccepted(t: Tables, caller: AuthUser, a: Appointment) {
    SlotRefOk(t, a.availabilityId) &&
    (IsPatient(caller) || (PatientRefOk(t, a.patientId) && a.doctorId in t.doctors && AppointmentStatusOk(a.status)))
  }

  /** A patient's PUT on their own appointment with an acceptable status. */
  predicate PatientOwns(t: Tables, caller: AuthUser, id: int, req: UpdateRequest) {
    id in t.appointments && StatusFieldOk(req.status) && IsPatient(caller) &&
    t.appointments[id].userId == Some(caller.id)
  }

  /** The request moves the appointment to the slot under a truthy id. */
  predicate MovesToSlot(t: Tables, id: int, req: UpdateRequest)
    requires id in t.appointments
  {
    SlotChanging(req.availabilityId, t.appointments[id].availabilityId) && TruthyInt(req.availabilityId)
  }

  /** PUT gets as far as its UPDATE: the appointment exists and the status is
      acceptable; for a patient, the appointment is theirs, the date is
      truthy, and a new slot named by a truthy id exists and is free. */
  predicate ReachesUpdate(t: Tables, caller: AuthUser, id: int, req: UpdateRequest) {
    id in t.appointments && StatusFieldOk(req.status) &&
    (IsPatient(caller) ==>
      && t.appointments[id].userId == Some(caller.id) && TruthyStr(req.date)
      && (MovesToSlot(t, id, req) ==>
            req.availabilityId.value in t.slots && !t.slots[req.availabilityId.value].isBooked))
  }

  /** The slot flags once the slot writes of a PUT that reached its UPDATE
      are done. */
  function SlotsWritten(t: Tables, id: int, req: UpdateRequest): Tables
    requires id in t.appointments
  {
    var current := t.appointments[id].availabilityId;
    if SlotChanging(req.availabilityId, current) then ExchangeSlots(t, current, req.availabilityId) else t
  }

  function UpdateSpec(t: Tables, caller: AuthUser, id: int, req: UpdateRequest): (o: Outcome<Appointment>)
    ensures o.response == Failure(404, "Appointment not found") && o.after == t <==> id !in t.appointments
    ensures id in t.appointments && !StatusFieldOk(req.status)
      ==> o == Outcome(Failure(400, "status must be 'scheduled' or 'completed'"), t)
    ensures o.response.Failure? && o.response.status == 403 <==>
      id in t.appointments && StatusFieldOk(req.status) &&
      IsPatient(caller) && t.appointments[id].userId != Some(caller.id)
    ensures o.response.Failure? && o.response.status == 403 ==> o.after == t
    ensures o.response == Failure(400, "date is required for rescheduling") <==>
      PatientOwns(t, caller, id, req) && !TruthyStr(req.date)
    ensures o.response == Failure(400, "date is required for rescheduling") ==> o.after == t
    ensures o.response == Failure(404, "New slot not found") <==>
      PatientOwns(t, caller, id, req) && TruthyStr(req.date) && MovesToSlot(t, id, req) &&
      req.availabilityId.value !in t.slots
    ensures o.response == Failure(409, "New slot is already booked") <==>
      PatientOwns(t, caller, id, req) && TruthyStr(req.date) && MovesToSlot(t, id, req) &&
      req.availabilityId.value in t.slots && t.slots[req.availabilityId.value].isBooked
    ensures o.response == Failure(404, "New slot not found") || o.response == Failure(409, "New slot is already booked")
      ==> id in t.appointments && o.after == SlotBooked(t, t.appointments[id].availabilityId, false)
    ensures o.response == Failure(500, INTERNAL_ERROR) <==>
      ReachesUpdate(t, caller, id, req) && !UpdateAccepted(t, caller, UpdatedRow(caller, t.appointments[id], req))
    ensures o.response == Failure(500, INTERNAL_ERROR) ==>
      id in t.appointments && o.after == SlotsWritten(t, id, req)
    ensures o.response.Success? <==>
      ReachesUpdate(t, caller, id, req) && UpdateAccepted(t, caller, UpdatedRow(caller, t.appointments[id], req))
    ensures o.after.appointments.Keys == t.appointments.Keys
    ensures o.response.Success? ==>
      && o.response.status == 200
      && o.after.appointments == t.appointments[id := o.response.body]
      && SlotRefOk(t, o.response.body.availabilityId)
    ensures o.response.Success? && IsPatient(caller) ==>
      req.date.Given? && o.response.body == t.appointments[id].(date := req.date.value,
                                             availabilityId := req.availabilityId.OrColumn(t.appointments[id].availabilityId))
    ensures o.response.Success? && !IsPatient(caller) ==>
      var existing := t.appointments[id];
      o.response.body == existing.(
        patientId := req.patientId.OrColumn(existing.patientId),
        doctorId := req.doctorId.Or(existing.doctorId),
        availabilityId := req.availabilityId.OrColumn(existing.availabilityId),
        date := req.date.Or(existing.date),
        status := req.status.Or(existing.status))
  {
    if id !in t.appointments then
      Outcome(Failure(404, "Appointment not found"), t)
    else
      var existing := t.appointments[id];
      var changing := SlotChanging(req.availabilityId, existing.availabilityId);
      if !StatusFieldOk(req.status) then
        Outcome(Failure(400, "status must be 'scheduled' or 'completed'"), t)
      else if IsPatient(caller) && existing.userId != Some(caller.id) then
        Outcome(Failure(403, "You can only reschedule your own appointments"), t)
      else if IsPatient(caller) && !TruthyStr(req.date) then
        Outcome(Failure(400, "date is required for rescheduling"), t)
      else if IsPatient(caller) && changing && TruthyInt(req.availabilityId)
              && req.availabilityId.value !in t.slots then
        // the old slot was freed before the lookup
        Outcome(Failure(404, "New slot not found"), SlotBooked(t, existing.availabilityId, false))
      else if IsPatient(caller) && changing && TruthyInt(req.availabilityId)
              && SlotBooked(t, existing.availabilityId, false).slots[req.availabilityId.value].isBooked then
        Outcome(Failure(409, "New slot is already booked"), SlotBooked(t, existing.availabilityId, false))
      else
        var booked := SlotsWritten(t, id, req);
        var updated := UpdatedRow(caller, existing, req);
        if !UpdateAccepted(booked, caller, updated) then
          // a foreign key or the CHECK rejects the UPDATE; the slot writes stay
          Outcome(Failure(500, INTERNAL_ERROR), booked)
        else
          Outcome(Success(200, updated), booked.(appointments := booked.appointments[id := updated]))
  }

  method Update(db: Database, caller: AuthUser, id: int, req: UpdateRequest) returns (res: Response<Appointment>)
    modifies db
    ensures Outcome(res, db.Snapshot()) == UpdateSpec(old(db.Snapshot()), caller, id, req)
  {
    if id !in db.appointments {
      return Failure(404, "Appointment not found");
    }
    var existing := db.appointments[id];
    if !StatusFieldOk(req.status) {
      return Failure(400, "status must be 'scheduled' or 'completed'");
    }
    if IsPatient(caller) {
      if existing.userId != Some(caller.id) {
        return Failure(403, "You can only reschedule your own appointments");
      }
      if !TruthyStr(req.date) {
        return Failure(400, "date is required for rescheduling");
      }
      if SlotChanging(req.availabilityId, existing.availabilityId) {
        SetSlotBooked(db, existing.availabilityId, false);
        if TruthyInt(req.availabilityId) {
          var slotId := req.availabilityId.value;
          if slotId !in db.slots {
            return Failure(404, "New slot not found");
          }
          if db.slots[slotId].isBooked {
            return Failure(409, "New slot is already booked");
          }
          SetSlotBooked(db, Some(slotId), true);
        }
      }
    } else if SlotChanging(req.availabilityId, existing.availabilityId) {
      SetSlotBooked(db, existing.availabilityId, false);
      if TruthyInt(req.availabilityId) {
        SetSlotBooked(db, Some(req.availabilityId.value), true);
      }
    }
    var updated := UpdatedRow(caller, existing, req);
    if !UpdateAccepted(db.Snapshot(), caller, updated) {
      return Failure(500, INTERNAL_ERROR);
    }
    db.appointments := db.appointments[id := updated];
    res := Success(200, updated);
  }

  /** The requests with which PUT can break duality, each changing the slot:
      a null slot id, which frees the slot but keeps the reference; on the
      patient path, a truthy new slot id that is missing or booked (checked
      only after the old slot was freed); on the staff path, a truthy new
      slot id of a booked slot (booked again without a check); and a request
      whose UPDATE the engine rejects after the slot writes were made. */
  predicate BreaksDualityRisk(t: Tables, caller: AuthUser, id: int, req: UpdateRequest) {
    id in t.appointments &&
    SlotChanging(req.availabilityId, t.appointments[id].availabilityId) &&
    (req.availabilityId == Null ||
     (TruthyInt(req.availabilityId) &&
      var v := req.availabilityId.value;
      if IsPatient(caller) then v !in t.slots || t.slots[v].isBooked
      else v in t.slots && t.slots[v].isBooked) ||
     (ReachesUpdate(t, caller, id, req) && !UpdateAccepted(t, caller, UpdatedRow(caller, t.appointments[id], req))))
  }

  /** A successful PUT rewrites the one appointment, keeps or replaces its
      slot reference as `availability_id ?? existing`, and exchanges the slot
      flags exactly when the slot changes. */
  lemma UpdateSuccessShape(t: Tables, caller: AuthUser, id: int, req: UpdateRequest)
    ensures var o := UpdateSpec(t, caller, id, req);
      o.response.Success? ==>
        && id in t.appointments
        && o.after.appointments == t.appointments[id := o.response.body]
        && o.response.body.availabilityId == req.availabilityId.OrColumn(t.appointments[id].availabilityId)
        && o.after.slots == (if SlotChanging(req.availabilityId, t.appointments[id].availabilityId)
                             then ExchangeSlots(t, t.appointments[id].availabilityId, req.availabilityId).slots
                             else t.slots)
  {
    if IsPatient(caller) {
      RescheduleShape(t, caller, id, req);
    } else {
      StaffUpdateShape(t, caller, id, req);
    }
  }

  /** UpdateSuccessShape on the patient path. */
  lemma RescheduleShape(t: Tables, caller: AuthUser, id: int, req: UpdateRequest)
    requires IsPatient(caller)
    ensures var o := UpdateSpec(t, caller, id, req);
      o.response.Success? ==>
        && id in t.appointments
        && o.after.appointments == t.appointments[id := o.response.body]
        && o.response.body.availabilityId == req.availabilityId.OrColumn(t.appointments[id].availabilityId)
        && req.date.Given? && o.response.body.date == req.date.value
        && o.response.body == t.appointments[id].(date := o.response.body.date,
                                                  availabilityId := o.response.body.availabilityId)
        && o.after.slots == (if SlotChanging(req.availabilityId, t.appointments[id].availabilityId)
                             then ExchangeSlots(t, t.appointments[id].availabilityId, req.availabilityId).slots
                             else t.slots)
  {
  }

  /** UpdateSuccessShape on the staff path. */
  lemma StaffUpdateShape(t: Tables, caller: AuthUser, id: int, req: UpdateRequest)
    requires !IsPatient(caller)
    ensures var o := UpdateSpec(t, caller, id, req);
      o.response.Success? ==>
        && id in t.appointments
        && o.after.appointments == t.appointments[id := o.response.body]
        && o.response.body.availabilityId == req.availabilityId.OrColumn(t.appointments[id].availabilityId)
        && o.response.body.patientId == req.patientId.OrColumn(t.appointments[id].patientId)
        && o.response.body.doctorId == req.doctorId.Or(t.appointments[id].doctorId)
        && o.response.body.date == req.date.Or(t.appointments[id].date)
        && o.response.body.status == req.status.Or(t.appointments[id].status)
        && o.response.body.userId == t.appointments[id].userId
        && o.after.slots == (if SlotChanging(req.availabilityId, t.appointments[id].availabilityId)
                             then ExchangeSlots(t, t.appointments[id].availabilityId, req.availabilityId).slots
                             else t.slots)
  {
  }

  /** Outside BreaksDualityRisk, a refused PUT leaves the store as it was. */
  lemma UpdateFailureUnchanged(t: Tables, caller: AuthUser, id: int, req: UpdateRequest)
    requires !BreaksDualityRisk(t, caller, id, req)
    ensures var o := UpdateSpec(t, caller, id, req);
      o.response.Failure? ==> o.after == t
  {
  }

  /** The flag of slot s after ExchangeSlots. */
  lemma ExchangeAt(t: Tables, current: Option<int>, f: Field<int>, s: int)
    requires s in t.slots && s != 0
    ensures ExchangeSlots(t, current, f).slots.Keys == t.slots.Keys
    ensures ExchangeSlots(t, current, f).slots[s].isBooked ==
      if f == Given(s) then true else if current == Some(s) then false else t.slots[s].isBooked
  {
    var freed := SlotBooked(t, current, false);
    assert freed.slots[s].isBooked == if current == Some(s) then false else t.slots[s].isBooked;
    if TruthyInt(f) {
      var booked := SlotBooked(freed, Some(f.value), true);
      assert ExchangeSlots(t, current, f) == booked;
      assert booked.slots[s].isBooked == if f.value == s then true else freed.slots[s].isBooked;
    } else {
      assert f != Given(s);
    }
  }

  /** PUT keeps duality for every request outside BreaksDualityRisk. */
  lemma UpdateKeepsDualityOtherwise(t: Tables, caller: AuthUser, id: int, req: UpdateRequest)
    requires WellFormed(t) && Duality(t)
    requires !BreaksDualityRisk(t, caller, id, req)
    ensures Duality(UpdateSpec(t, caller, id, req).after)
  {
    var o := UpdateSpec(t, caller, id, req);
    UpdateFailureUnchanged(t, caller, id, req);
    UpdateSuccessShape(t, caller, id, req);
    if o.response.Success? {
      var t' := o.after;
      var before := t.appointments[id];
      var after := o.response.body;
      var changing := SlotChanging(req.availabilityId, before.availabilityId);
      forall s | s in t'.slots
        ensures |Refs(t', s)| <= 1 && (t'.slots[s].isBooked <==> |Refs(t', s)| == 1)
      {
        ExchangeAt(t, before.availabilityId, req.availabilityId, s);
        assert s in t.slots && s != 0;
        RefsAfterPut(t, t', id, after, s);
        UpdateSlotAt(t, caller, id, req, s);
      }
    }
  }

  /** The per-slot step of UpdateKeepsDualityOtherwise. */
  lemma UpdateSlotAt(t: Tables, caller: AuthUser, id: int, req: UpdateRequest, s: int)
    requires Duality(t) && !BreaksDualityRisk(t, caller, id, req)
    requires id in t.appointments && s in t.slots && s != 0
    ensures var before := t.appointments[id];
      var changing := SlotChanging(req.availabilityId, before.availabilityId);
      var after := req.availabilityId.OrColumn(before.availabilityId);
      var booked := if changing then ExchangeSlots(t, before.availabilityId, req.availabilityId).slots[s].isBooked
                    else t.slots[s].isBooked;
      var refs := (Refs(t, s) - {id}) + (if after == Some(s) then {id} else {});
      |refs| <= 1 && (booked <==> |refs| == 1)
  {
    var before := t.appointments[id];
    var changing := SlotChanging(req.availabilityId, before.availabilityId);
    var after := req.availabilityId.OrColumn(before.availabilityId);
    ExchangeAt(t, before.availabilityId, req.availabilityId, s);
    if before.availabilityId == Some(s) {
      OnlyRef(t, s, id);
      assert Refs(t, s) - {id} == {};
      if changing {
        assert after != Some(s);
      } else {
        assert after == Some(s);
      }
    } else {
      assert id !in Refs(t, s);
      assert Refs(t, s) - {id} == Refs(t, s);
      if after == Some(s) {
        assert changing && req.availabilityId == Given(s);
        NoRefs(t, s);
      }
    }
  }

  // ---------------------------------------------------------------------------
  // DELETE /:id

  function DeleteSpec(t: Tables, caller: AuthUser, id: int): (o: Outcome<string>)
    ensures id !in t.appointments ==> o == Outcome(Failure(404, "Appointment not found"), t)
    ensures o.response.Failure? && o.response.status == 403 <==>
      id in t.appointments && IsPatient(caller) && t.appointments[id].userId != Some(caller.id)
    ensures o.response.Failure? ==> o.after == t
    ensures o.response.Success? <==>
      id in t.appointments && (IsPatient(caller) ==> t.appointments[id].userId == Some(caller.id))
    ensures o.response.Success? ==>
      && o.response == Success(200, "Appointment deleted")
      && o.after == SlotBooked(t, t.appointments[id].availabilityId, false).(appointments := t.appointments - {id})
  {
    if id !in t.appointments then
      Outcome(Failure(404, "Appointment not found"), t)
    else if IsPatient(caller) && t.appointments[id].userId != Some(caller.id) then
      Outcome(Failure(403, "You can only cancel your own appointments"), t)
    else
      var freed := SlotBooked(t, t.appointments[id].availabilityId, false);
      Outcome(Success(200, "Appointment deleted"), freed.(appointments := freed.appointments - {id}))
  }

  method Delete(db: Database, caller: AuthUser, id: int) returns (res: Response<string>)
    modifies db
    ensures Outcome(res, db.Snapshot()) == DeleteSpec(old(db.Snapshot()), caller, id)
  {
    if id !in db.appointments {
      return Failure(404, "Appointment not found");
    }
    var existing := db.appointments[id];
    if IsPatient(caller) && existing.userId != Some(caller.id) {
      return Failure(403, "You can only cancel your own appointments");
    }
    SetSlotBooked(db, existing.availabilityId, false);
    db.appointments := db.appointments - {id};
    res := Success(200, "Appointment deleted");
  }

  /** Removing an appointment and freeing its slot keeps the store well formed. */
  lemma UnbookKeepsWellFormed(t: Tables, id: int)
    requires WellFormed(t) && id in t.appointments
    ensures WellFormed(SlotBooked(t, t.appointments[id].availabilityId, false).(appointments := t.appointments - {id}))
  {
  }

  /** Removing an appointment and freeing the slot it referenced keeps
      duality. */
  lemma UnbookKeepsDuality(t: Tables, id: int)
    requires WellFormed(t) && Duality(t) && id in t.appointments
    ensures Duality(SlotBooked(t, t.appointments[id].availabilityId, false).(appointments := t.appointments - {id}))
  {
    var gone := t.appointments[id];
    var t' := SlotBooked(t, gone.availabilityId, false).(appointments := t.appointments - {id});
    forall s | s in t'.slots
      ensures |Refs(t', s)| <= 1 && (t'.slots[s].isBooked <==> |Refs(t', s)| == 1)
    {
      RefsAfterRemove(t, t', id, s);
      if gone.availabilityId == Some(s) {
        OnlyRef(t, s, id);
        assert Refs(t', s) == {};
      } else {
        assert id !in Refs(t, s);
        assert Refs(t', s) == Refs(t, s);
      }
    }
  }

  /** DELETE keeps slot/appointment duality and the store well formed. */
  lemma DeleteKeepsDuality(t: Tables, caller: AuthUser, id: int)
    requires WellFormed(t) && Duality(t)
    ensures WellFormed(DeleteSpec(t, caller, id).after)
    ensures Duality(DeleteSpec(t, caller, id).after)
  {
    var o := DeleteSpec(t, caller, id);
    if o.response.Success? {
      UnbookKeepsWellFormed(t, id);
      UnbookKeepsDuality(t, id);
    }
  }

  // ---------------------------------------------------------------------------
  // Foreign keys

  /** Every appointment POST / leaves behind names an existing slot or none:
      the insert of a dangling reference is refused by the engine. */
  lemma CreateKeepsSlotRefs(t: Tables, caller: AuthUser, req: CreateRequest)
    requires WellFormed(t) && SlotRefsResolve(t)
    ensures SlotRefsResolve(CreateSpec(t, caller, req).after)
  {
    var o := CreateSpec(t, caller, req);
    if o.response.Success? {
      CreateEffect(t, caller, req);
      forall a | a in o.after.appointments ensures SlotRefOk(o.after, o.after.appointments[a].availabilityId) {
        if a != o.response.body.id {
          assert o.after.appointments[a] == t.appointments[a];
        }
      }
    }
  }

  /** PUT writes only slot flags and appointment rows, never adds or removes
      a slot, and writes no appointment when it fails. */
  lemma UpdateFrame(t: Tables, caller: AuthUser, id: int, req: UpdateRequest)
    ensures var o := UpdateSpec(t, caller, id, req);
      && o.after == t.(slots := o.after.slots, appointments := o.after.appointments)
      && o.after.slots.Keys == t.slots.Keys
      && (o.response.Failure? ==> o.after.appointments == t.appointments)
  {
    var o := UpdateSpec(t, caller, id, req);
    if id in t.appointments {
      var freed := SlotBooked(t, t.appointments[id].availabilityId, false);
      var booked := SlotsWritten(t, id, req);
      assert booked == t.(slots := booked.slots) && booked.slots.Keys == t.slots.Keys;
      assert o.after == t || o.after == freed || o.after == booked ||
             o.after == booked.(appointments := o.after.appointments);
    }
  }

  /** Every appointment PUT leaves behind names an existing slot or none,
      whatever the request: the slot writes keep the slot ids, and an UPDATE
      naming a missing slot is refused. */
  lemma UpdateKeepsSlotRefs(t: Tables, caller: AuthUser, id: int, req: UpdateRequest)
    requires SlotRefsResolve(t)
    ensures SlotRefsResolve(UpdateSpec(t, caller, id, req).after)
  {
    var o := UpdateSpec(t, caller, id, req);
    UpdateFrame(t, caller, id, req);
    forall a | a in o.after.appointments ensures SlotRefOk(o.after, o.after.appointments[a].availabilityId) {
      if o.response.Success? && a == id {
        assert SlotRefOk(t, o.response.body.availabilityId);
      } else {
        assert o.after.appointments[a] == t.appointments[a];
      }
    }
  }

  /** DELETE removes an appointment and so keeps every remaining reference
      resolving. */
  lemma DeleteKeepsSlotRefs(t: Tables, caller: AuthUser, id: int)
    requires SlotRefsResolve(t)
    ensures SlotRefsResolve(DeleteSpec(t, caller, id).after)
  {
    var o := DeleteSpec(t, caller, id);
    forall a | a in o.after.appointments ensures SlotRefOk(o.after, o.after.appointments[a].availabilityId) {
      assert a in t.appointments && o.after.appointments[a] == t.appointments[a];
    }
  }
}
