/** The prescription service (`/api/prescriptions`): doctors prescribe a
    medicine, the pharmacy lists and dispenses prescriptions, and dispensing
    moves a prescription from pending to dispensed exactly once while taking
    one unit from the medicine's stock. `now` stands for SQLite's
    `datetime('now')`. */
module Prescriptions {
  import opened Base
  import opened TextOrder
  import opened Query
  import opened Schema
  import opened AuthMiddleware

  const PHARMACY_ROLES := [Role.Pharmacy, Role.Admin]

  // ---------------------------------------------------------------------------
  // GET /

  /** A row of the pharmacy list: the prescription with its medicine, patient
      and doctor. */
  datatype PrescriptionView = PrescriptionView(
    p: Prescription, medicineName: string, medicineStrength: string,
    patientName: string, patientVillage: Option<string>, doctorName: string)

  /** The inner joins keep a prescription whose medicine, patient and doctor exist. */
  predicate Joined(t: Tables, p: Prescription) {
    p.medicineId in t.medicines && p.patientId in t.patients && p.doctorId in t.doctors
  }

  function ViewOf(t: Tables, p: Prescription): PrescriptionView {
    PrescriptionView(
      p,
      if p.medicineId in t.medicines then t.medicines[p.medicineId].name else "",
      if p.medicineId in t.medicines then t.medicines[p.medicineId].strength else "",
      if p.patientId in t.patients then t.patients[p.patientId].name else "",
      if p.patientId in t.patients then t.patients[p.patientId].village else None,
      if p.doctorId in t.doctors then t.doctors[p.doctorId].name else "")
  }

  /** `ORDER BY p.status DESC, p.created_at DESC`. */
  function StatusKey(p: Prescription): seq<string> {
    [p.status, p.createdAt]
  }

  function JoinedIds(t: Tables): set<int> {
    set k | k in t.prescriptions && Joined(t, t.prescriptions[k])
  }

  function JoinedRows(t: Tables): (rows: seq<Prescription>)
    requires WellFormed(t)
    ensures forall x :: x in rows ==> x.id in t.prescriptions && t.prescriptions[x.id] == x && Joined(t, x)
    ensures forall k :: k in t.prescriptions && Joined(t, t.prescriptions[k]) ==> t.prescriptions[k] in rows
    ensures |rows| == |JoinedIds(t)|
    ensures SortedByKey(rows, StatusKey, true)
  {
    var keep := (p: Prescription) => Joined(t, p);
    var rows := SelectSorted(t.prescriptions, t.prescriptionSeq, (p: Prescription) => p.id, keep, StatusKey, true);
    assert SelectedKeys(t.prescriptions, keep) == JoinedIds(t);
    rows
  }

  /** GET /, for pharmacy and admin: every joined prescription, by status
      descending (so "pending" before "dispensed") and newest first within a
      status. */
  function List(t: Tables, caller: AuthUser): (r: Response<seq<PrescriptionView>>)
    requires WellFormed(t)
    ensures r.Failure? <==> caller.role !in PHARMACY_ROLES
    ensures r.Failure? ==> r.status == 403
    ensures r.Success? ==>
      && (forall v :: v in r.body ==>
            v.p.id in t.prescriptions && t.prescriptions[v.p.id] == v.p && Joined(t, v.p) && v == ViewOf(t, v.p))
      && (forall k :: k in t.prescriptions && Joined(t, t.prescriptions[k]) ==> ViewOf(t, t.prescriptions[k]) in r.body)
      && |r.body| == |JoinedIds(t)|
      && (forall i, j :: 0 <= i < j < |r.body| ==>
            StrLe(r.body[j].p.status, r.body[i].p.status) &&
            (r.body[i].p.status == r.body[j].p.status ==> StrLe(r.body[j].p.createdAt, r.body[i].p.createdAt)))
  {
    var gate := Guard(caller, PHARMACY_ROLES);
    if gate.Some? then Failure(gate.value.status, gate.value.error)
    else
      var rows := JoinedRows(t);
      var views := Mapped(rows, x => ViewOf(t, x));
      ListViews(t, rows, views);
      Success(200, views)
  }

  lemma ListViews(t: Tables, rows: seq<Prescription>, r: seq<PrescriptionView>)
    requires |r| == |rows| && forall i :: 0 <= i < |rows| ==> r[i] == ViewOf(t, rows[i])
    requires SortedByKey(rows, StatusKey, true)
    ensures forall v :: v in r ==> v.p in rows && v == ViewOf(t, v.p)
    ensures forall x :: x in rows ==> ViewOf(t, x) in r
    ensures forall i, j :: 0 <= i < j < |r| ==>
      StrLe(r[j].p.status, r[i].p.status) &&
      (r[i].p.status == r[j].p.status ==> StrLe(r[j].p.createdAt, r[i].p.createdAt))
  {
    forall i, j | 0 <= i < j < |r|
      ensures StrLe(r[j].p.status, r[i].p.status) &&
        (r[i].p.status == r[j].p.status ==> StrLe(r[j].p.createdAt, r[i].p.createdAt))
    {
      assert Before(StatusKey(rows[i]), StatusKey(rows[j]), true);
      KeyLePair(rows[j].status, rows[j].createdAt, rows[i].status, rows[i].createdAt);
    }
    forall v | v in r ensures v.p in rows && v == ViewOf(t, v.p) {
      var i :| 0 <= i < |r| && r[i] == v;
    }
    forall x | x in rows ensures ViewOf(t, x) in r {
      var i :| 0 <= i < |rows| && rows[i] == x;
      assert r[i] == ViewOf(t, x);
    }
  }

  /** In the pharmacy list no dispensed prescription comes before a pending one. */
  lemma PendingBeforeDispensed(t: Tables, caller: AuthUser, i: int, j: int)
    requires WellFormed(t)
    requires List(t, caller).Success?
    requires 0 <= i < j < |List(t, caller).body|
    ensures !(List(t, caller).body[i].p.status == DISPENSED && List(t, caller).body[j].p.status == PENDING)
  {
    PendingSortsAfterDispensed();
  }

  /** "pending" is greater than "dispensed" under the BINARY collation. */
  lemma PendingSortsAfterDispensed()
    ensures StrLe(DISPENSED, PENDING) && !StrLe(PENDING, DISPENSED)
  {
    assert PENDING[0] == 'p' && DISPENSED[0] == 'd';
  }

  // ---------------------------------------------------------------------------
  // GET /patient/:id

  /** A row of a patient's list: the prescription with its medicine and doctor. */
  datatype PatientPrescriptionView = PatientPrescriptionView(
    p: Prescription, medicineName: string, medicineStrength: string, doctorName: string)

  predicate OfPatient(t: Tables, patientId: int, p: Prescription) {
    p.patientId == patientId && p.medicineId in t.medicines && p.doctorId in t.doctors
  }

  function PatientViewOf(t: Tables, p: Prescription): PatientPrescriptionView {
    PatientPrescriptionView(
      p,
      if p.medicineId in t.medicines then t.medicines[p.medicineId].name else "",
      if p.medicineId in t.medicines then t.medicines[p.medicineId].strength else "",
      if p.doctorId in t.doctors then t.doctors[p.doctorId].name else "")
  }

  function CreatedKey(p: Prescription): seq<string> {
    [p.createdAt]
  }

  function PatientIds(t: Tables, patientId: int): set<int> {
    set k | k in t.prescriptions && OfPatient(t, patientId, t.prescriptions[k])
  }

  function PatientRows(t: Tables, patientId: int): (rows: seq<Prescription>)
    requires WellFormed(t)
    ensures forall x :: x in rows ==> x.id in t.prescriptions && t.prescriptions[x.id] == x && OfPatient(t, patientId, x)
    ensures forall k :: k in t.prescriptions && OfPatient(t, patientId, t.prescriptions[k]) ==> t.prescriptions[k] in rows
    ensures |rows| == |PatientIds(t, patientId)|
    ensures SortedByKey(rows, CreatedKey, true)
  {
    var keep := (p: Prescription) => OfPatient(t, patientId, p);
    var rows := SelectSorted(t.prescriptions, t.prescriptionSeq, (p: Prescription) => p.id, keep, CreatedKey, true);
    assert SelectedKeys(t.prescriptions, keep) == PatientIds(t, patientId);
    rows
  }

  /** GET /patient/:id, for any signed-in caller: exactly that patient's
      prescriptions (whose medicine and doctor exist), newest first. */
  function ListForPatient(t: Tables, patientId: int): (r: seq<PatientPrescriptionView>)
    requires WellFormed(t)
    ensures forall v :: v in r ==>
      v.p.id in t.prescriptions && t.prescriptions[v.p.id] == v.p && OfPatient(t, patientId, v.p) &&
      v == PatientViewOf(t, v.p)
    ensures forall k :: k in t.prescriptions && OfPatient(t, patientId, t.prescriptions[k]) ==>
      PatientViewOf(t, t.prescriptions[k]) in r
    ensures |r| == |PatientIds(t, patientId)|
    ensures forall i, j :: 0 <= i < j < |r| ==> StrLe(r[j].p.createdAt, r[i].p.createdAt)
  {
    var rows := PatientRows(t, patientId);
    var r := Mapped(rows, x => PatientViewOf(t, x));
    PatientViews(t, rows, r);
    r
  }

  lemma PatientViews(t: Tables, rows: seq<Prescription>, r: seq<PatientPrescriptionView>)
    requires |r| == |rows| && forall i :: 0 <= i < |rows| ==> r[i] == PatientViewOf(t, rows[i])
    requires SortedByKey(rows, CreatedKey, true)
    ensures forall v :: v in r ==> v.p in rows && v == PatientViewOf(t, v.p)
    ensures forall x :: x in rows ==> PatientViewOf(t, x) in r
    ensures forall i, j :: 0 <= i < j < |r| ==> StrLe(r[j].p.createdAt, r[i].p.createdAt)
  {
    forall i, j | 0 <= i < j < |r| ensures StrLe(r[j].p.createdAt, r[i].p.createdAt) {
      assert Before(CreatedKey(rows[i]), CreatedKey(rows[j]), true);
      KeyLeSingle(rows[j].createdAt, rows[i].createdAt);
    }
    forall v | v in r ensures v.p in rows && v == PatientViewOf(t, v.p) {
      var i :| 0 <= i < |r| && r[i] == v;
    }
    forall x | x in rows ensures PatientViewOf(t, x) in r {
      var i :| 0 <= i < |rows| && rows[i] == x;
      assert r[i] == PatientViewOf(t, x);
    }
  }

  // ---------------------------------------------------------------------------
  // POST /

  datatype PrescribeRequest = PrescribeRequest(patientId: Field<int>, medicineId: Field<string>, doctorId: Field<int>)

  /** The body POST / answers with. */
  datatype Prescribed = Prescribed(id: int, status: string)

  /** The foreign keys of a new prescription: its patient, doctor and
      medicine exist. */
  predicate References(t: Tables, patientId: int, doctorId: int, medicineId: string) {
    patientId in t.patients && doctorId in t.doctors && medicineId in t.medicines
  }

  function CreateSpec(t: Tables, caller: AuthUser, req: PrescribeRequest, now: string): (o: Outcome<Prescribed>)
    ensures o.response.Failure? ==> o.after == t
    ensures o.response.Failure? && o.response.status == 403 <==> !caller.role.Doctor?
    ensures o.response == Failure(400, "patient_id and medicine_id required") <==>
      caller.role.Doctor? && !(TruthyInt(req.patientId) && TruthyStr(req.medicineId))
    ensures o.response == Failure(400, "doctor_id required") <==>
      caller.role.Doctor? && TruthyInt(req.patientId) && TruthyStr(req.medicineId) && !TruthyInt(req.doctorId)
    ensures o.response == Failure(500, FOREIGN_KEY_FAILED) <==>
      caller.role.Doctor? && TruthyInt(req.patientId) && TruthyStr(req.medicineId) && TruthyInt(req.doctorId) &&
      !References(t, req.patientId.value, req.doctorId.value, req.medicineId.value)
    ensures o.response.Success? <==>
      caller.role.Doctor? && TruthyInt(req.patientId) && TruthyStr(req.medicineId) && TruthyInt(req.doctorId) &&
      References(t, req.patientId.value, req.doctorId.value, req.medicineId.value)
    ensures o.response.Success? ==>
      && References(t, req.patientId.value, req.doctorId.value, req.medicineId.value)
      && o.response == Success(201, Prescribed(t.prescriptionSeq + 1, PENDING))
      && o.after == t.(prescriptions := t.prescriptions[t.prescriptionSeq + 1 :=
                         Prescription(t.prescriptionSeq + 1, req.patientId.value, req.doctorId.value,
                                      req.medicineId.value, PENDING, now, None)],
                       prescriptionSeq := t.prescriptionSeq + 1)
  {
    var gate := Guard(caller, [Role.Doctor]);
    if gate.Some? then Outcome(Failure(gate.value.status, gate.value.error), t)
    else if !TruthyInt(req.patientId) || !TruthyStr(req.medicineId) then
      Outcome(Failure(400, "patient_id and medicine_id required"), t)
    else if !TruthyInt(req.doctorId) then
      Outcome(Failure(400, "doctor_id required"), t)
    else if !References(t, req.patientId.value, req.doctorId.value, req.medicineId.value) then
      // a foreign key rejects the INSERT; the handler answers with the engine's message
      Outcome(Failure(500, FOREIGN_KEY_FAILED), t)
    else
      var id := t.prescriptionSeq + 1;
      var p := Prescription(id, req.patientId.value, req.doctorId.value, req.medicineId.value, PENDING, now, None);
      Outcome(Success(201, Prescribed(id, PENDING)), t.(prescriptions := t.prescriptions[id := p], prescriptionSeq := id))
  }

  method Create(db: Database, caller: AuthUser, req: PrescribeRequest, now: string) returns (res: Response<Prescribed>)
    modifies db
    ensures Outcome(res, db.Snapshot()) == CreateSpec(old(db.Snapshot()), caller, req, now)
  {
    var gate := Guard(caller, [Role.Doctor]);
    if gate.Some? {
      return Failure(gate.value.status, gate.value.error);
    }
    if !TruthyInt(req.patientId) || !TruthyStr(req.medicineId) {
      return Failure(400, "patient_id and medicine_id required");
    }
    if !TruthyInt(req.doctorId) {
      return Failure(400, "doctor_id required");
    }
    if !References(db.Snapshot(), req.patientId.value, req.doctorId.value, req.medicineId.value) {
      return Failure(500, FOREIGN_KEY_FAILED);
    }
    var id := db.prescriptionSeq + 1;
    db.InsertPrescriptionRow(Prescription(id, req.patientId.value, req.doctorId.value, req.medicineId.value,
                                          PENDING, now, None));
    res := Success(201, Prescribed(id, PENDING));
  }

  // ---------------------------------------------------------------------------
  // PATCH /:id/dispense

  /** PATCH /:id/dispense as intended, with `datetime('now')` as every
      DEFAULT in the schema writes it: the checks, then one transaction that
      marks the prescription dispensed and takes one unit of stock.
      `DispenseAsWritten` below is the handler as the code stands. */
  function DispenseSpec(t: Tables, caller: AuthUser, id: int, now: string): (o: Outcome<string>)
    ensures o.response.Failure? ==> o.after == t
    ensures o.response.Failure? && o.response.status == 403 <==> caller.role !in PHARMACY_ROLES
    ensures o.response == Failure(404, "Prescription not found") <==>
      caller.role in PHARMACY_ROLES && id !in t.prescriptions
    ensures o.response == Failure(400, "Already dispensed") <==>
      caller.role in PHARMACY_ROLES && id in t.prescriptions && t.prescriptions[id].status == DISPENSED
    ensures o.response == Failure(400, "Out of stock") <==>
      && caller.role in PHARMACY_ROLES && id in t.prescriptions && t.prescriptions[id].status != DISPENSED
      && t.prescriptions[id].medicineId in t.medicines && t.medicines[t.prescriptions[id].medicineId].stock <= 0
    ensures o.response == Failure(500, INTERNAL_ERROR) <==>
      && caller.role in PHARMACY_ROLES && id in t.prescriptions && t.prescriptions[id].status != DISPENSED
      && t.prescriptions[id].medicineId !in t.medicines
    ensures o.response.Success? <==>
      && caller.role in PHARMACY_ROLES && id in t.prescriptions && t.prescriptions[id].status != DISPENSED
      && t.prescriptions[id].medicineId in t.medicines && t.medicines[t.prescriptions[id].medicineId].stock > 0
    ensures o.response.Success? ==>
      && id in t.prescriptions && t.prescriptions[id].status != DISPENSED
      && var m := t.prescriptions[id].medicineId;
      && m in t.medicines && t.medicines[m].stock > 0
      && o.after == t.(prescriptions := t.prescriptions[id := t.prescriptions[id].(status := DISPENSED, dispensedAt := Some(now))],
                       medicines := t.medicines[m := t.medicines[m].(stock := t.medicines[m].stock - 1)])
  {
    var gate := Guard(caller, PHARMACY_ROLES);
    if gate.Some? then Outcome(Failure(gate.value.status, gate.value.error), t)
    else if id !in t.prescriptions then Outcome(Failure(404, "Prescription not found"), t)
    else
      var p := t.prescriptions[id];
      if p.status == DISPENSED then Outcome(Failure(400, "Already dispensed"), t)
      else if p.medicineId !in t.medicines then
        // reading `stock_quantity` of the missing row throws
        Outcome(Failure(500, INTERNAL_ERROR), t)
      else if t.medicines[p.medicineId].stock <= 0 then Outcome(Failure(400, "Out of stock"), t)
      else
        var m := t.medicines[p.medicineId];
        Outcome(Success(200, "Dispensed successfully"),
                t.(prescriptions := t.prescriptions[id := p.(status := DISPENSED, dispensedAt := Some(now))],
                   medicines := t.medicines[p.medicineId := m.(stock := m.stock - 1)]))
  }

  method Dispense(db: Database, caller: AuthUser, id: int, now: string) returns (res: Response<string>)
    modifies db
    ensures Outcome(res, db.Snapshot()) == DispenseSpec(old(db.Snapshot()), caller, id, now)
  {
    var gate := Guard(caller, PHARMACY_ROLES);
    if gate.Some? {
      return Failure(gate.value.status, gate.value.error);
    }
    if id !in db.prescriptions {
      return Failure(404, "Prescription not found");
    }
    var p := db.prescriptions[id];
    if p.status == DISPENSED {
      return Failure(400, "Already dispensed");
    }
    if p.medicineId !in db.medicines {
      return Failure(500, INTERNAL_ERROR);
    }
    var m := db.medicines[p.medicineId];
    if m.stock <= 0 {
      return Failure(400, "Out of stock");
    }
    // the two UPDATEs run in one transaction
    db.prescriptions := db.prescriptions[id := p.(status := DISPENSED, dispensedAt := Some(now))];
    db.medicines := db.medicines[p.medicineId := m.(stock := m.stock - 1)];
    res := Success(200, "Dispensed successfully");
  }

  /** No medicine has negative stock. */
  ghost predicate StockNonNegative(t: Tables) {
    forall m :: m in t.medicines ==> t.medicines[m].stock >= 0
  }

  /** Dispensing keeps every stock non-negative and the store well formed. */
  lemma DispenseKeepsStock(t: Tables, caller: AuthUser, id: int, now: string)
    requires WellFormed(t) && StockNonNegative(t)
    ensures WellFormed(DispenseSpec(t, caller, id, now).after)
    ensures StockNonNegative(DispenseSpec(t, caller, id, now).after)
  {
    var o := DispenseSpec(t, caller, id, now);
    if o.response.Success? {
      var m := t.prescriptions[id].medicineId;
      assert t.medicines[m].id == m;
      assert o.after.prescriptions[id].id == id;
    }
  }

  /** A dispensed prescription stays dispensed, with the same dispensing time,
      whatever is dispensed next; and a successful dispense changes exactly
      one prescription and one medicine. */
  lemma DispenseNeverReverts(t: Tables, caller: AuthUser, id: int, now: string, k: int)
    requires k in t.prescriptions && t.prescriptions[k].status == DISPENSED
    ensures var after := DispenseSpec(t, caller, id, now).after;
      k in after.prescriptions && after.prescriptions[k] == t.prescriptions[k]
  {
  }

  /** Dispensing moves a prescription to dispensed exactly once: a second
      request for it is refused and changes nothing. */
  lemma DispenseOnce(t: Tables, caller: AuthUser, id: int, now: string, later: string)
    requires DispenseSpec(t, caller, id, now).response.Success?
    ensures var t' := DispenseSpec(t, caller, id, now).after;
      DispenseSpec(t', caller, id, later) == Outcome(Failure(400, "Already dispensed"), t')
  {
  }
  // ---------------------------------------------------------------------------
  // PATCH /:id/dispense as written

  /** The engine's error for the first UPDATE of the dispense transaction
      (prescriptions.ts:101). The SQLite that better-sqlite3 bundles is built
      without double-quoted string literals, so `datetime("now")` names a
      column `now`, which `prescriptions` does not have, and preparing the
      statement throws. */
  const NO_SUCH_COLUMN_NOW := "no such column: now"

  /** PATCH /:id/dispense as the code is written: the same checks as
      `DispenseSpec`, but a request that passes them all reaches the
      transaction, which throws before either UPDATE runs; the catch answers
      500 with the engine's message. No request ever changes the store. */
  function DispenseAsWritten(t: Tables, caller: AuthUser, id: int, now: string): (o: Outcome<string>)
    ensures o.after == t
    ensures !o.response.Success?
    ensures o.response == Failure(500, NO_SUCH_COLUMN_NOW) <==> DispenseSpec(t, caller, id, now).response.Success?
    ensures !DispenseSpec(t, caller, id, now).response.Success? ==> o == DispenseSpec(t, caller, id, now)
  {
    var intended := DispenseSpec(t, caller, id, now);
    if intended.response.Success? then Outcome(Failure(500, NO_SUCH_COLUMN_NOW), t) else intended
  }

  /** A pharmacy account dispensing a pending prescription whose medicine has
      five units in stock: as written the request fails with 500 and the
      prescription stays pending with the stock at 5; the intended dispense
      answers 200, marks it dispensed and leaves 4 units. */
  lemma DispenseAsWrittenFails()
    ensures var t := EmptyTables.(
              medicines := map["MED001" := Medicine("MED001", "Paracetamol", "Analgesic", "500mg", 2.5, 5)],
              prescriptions := map[1 := Prescription(1, 1, 1, "MED001", PENDING, "2025-03-01 09:00:00", None)],
              prescriptionSeq := 1);
      var caller := AuthUser(2, "Pharmacy", "pharmacy@ruralcare.com", Role.Pharmacy);
      var asWritten := DispenseAsWritten(t, caller, 1, "2025-03-02 10:00:00");
      var intended := DispenseSpec(t, caller, 1, "2025-03-02 10:00:00");
      && asWritten.response == Failure(500, NO_SUCH_COLUMN_NOW)
      && asWritten.after.prescriptions[1].status == PENDING && asWritten.after.medicines["MED001"].stock == 5
      && intended.response == Success(200, "Dispensed successfully")
      && intended.after.prescriptions[1].status == DISPENSED && intended.after.medicines["MED001"].stock == 4
  {
  }
}
