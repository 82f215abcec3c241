/** `/api/patients`: the clinic's patient register (list, read, create,
    replace, delete). These routes take no token. */
module Patients {
  import opened Base
  import opened TextOrder
  import opened Query
  import opened Schema

  const NOT_FOUND := "Patient not found"

  /** Every row of `patients` satisfies the CHECK on `risk_level`. */
  ghost predicate RiskLevelsOk(t: Tables) {
    forall k :: k in t.patients ==> RiskLevelOk(t.patients[k].riskLevel)
  }

  // ---------------------------------------------------------------------------
  // GET / and GET /:id

  function CreatedKey(p: Patient): seq<string> {
    [p.createdAt]
  }

  function AnyPatient(p: Patient): bool {
    true
  }

  /** GET /: every patient, newest first. */
  function List(t: Tables): (r: seq<Patient>)
    requires WellFormed(t)
    ensures forall p :: p in r ==> p.id in t.patients && t.patients[p.id] == p
    ensures forall k :: k in t.patients ==> t.patients[k] in r
    ensures |r| == |t.patients|
    ensures forall i, j :: 0 <= i < j < |r| ==> StrLe(r[j].createdAt, r[i].createdAt)
  {
    var rows := SelectSorted(t.patients, t.patientSeq, (p: Patient) => p.id, AnyPatient, CreatedKey, true);
    assert SelectedKeys(t.patients, AnyPatient) == t.patients.Keys;
    forall i, j | 0 <= i < j < |rows| ensures StrLe(rows[j].createdAt, rows[i].createdAt) {
      assert Before(CreatedKey(rows[i]), CreatedKey(rows[j]), true);
      KeyLeSingle(rows[j].createdAt, rows[i].createdAt);
    }
    rows
  }

  /** GET /:id. */
  function Get(t: Tables, id: int): (r: Response<Patient>)
    ensures r.Success? <==> id in t.patients
    ensures r.Success? ==> r == Success(200, t.patients[id])
    ensures r.Failure? ==> r == Failure(404, NOT_FOUND)
  {
    if id in t.patients then Success(200, t.patients[id]) else Failure(404, NOT_FOUND)
  }

  // ---------------------------------------------------------------------------
  // POST /

  /** The seven clinical fields of a create or replace request. */
  datatype PatientRequest = PatientRequest(
    name: Field<string>, age: Field<int>, gender: Field<string>, village: Field<string>,
    symptoms: Field<string>, vitals: Field<string>, riskLevel: Field<string>)

  /** `!name || !age || ... || !risk_level` is false: age 0 and empty strings
      count as missing. */
  predicate Complete(req: PatientRequest) {
    && TruthyStr(req.name) && TruthyInt(req.age) && TruthyStr(req.gender) && TruthyStr(req.village)
    && TruthyStr(req.symptoms) && TruthyStr(req.vitals) && TruthyStr(req.riskLevel)
  }

  function CreateSpec(t: Tables, req: PatientRequest, now: string): (o: Outcome<Patient>)
    ensures o.response.Failure? ==> o.after == t
    ensures o.response == Failure(400, "All fields are required") <==> !Complete(req)
    ensures o.response == Failure(500, INTERNAL_ERROR) <==> Complete(req) && !RiskLevelOk(req.riskLevel.value)
    ensures o.response.Success? <==> Complete(req) && RiskLevelOk(req.riskLevel.value)
    ensures o.response.Success? ==>
      var id := t.patientSeq + 1;
      var p := Patient.Patient(id, None, req.name.value, Some(req.age.value), Some(req.gender.value),
                               Some(req.village.value), Some(req.symptoms.value), Some(req.vitals.value),
                               req.riskLevel.value, now);
      && Complete(req) && RiskLevelOk(req.riskLevel.value)
      && o.response == Success(201, p)
      && o.after == t.(patients := t.patients[id := p], patientSeq := id)
  {
    if !Complete(req) then Outcome(Failure(400, "All fields are required"), t)
    else if !RiskLevelOk(req.riskLevel.value) then
      // the CHECK on risk_level rejects the INSERT and the handler throws
      Outcome(Failure(500, INTERNAL_ERROR), t)
    else
      var id := t.patientSeq + 1;
      var p := Patient.Patient(id, None, req.name.value, Some(req.age.value), Some(req.gender.value),
                               Some(req.village.value), Some(req.symptoms.value), Some(req.vitals.value),
                               req.riskLevel.value, now);
      Outcome(Success(201, p), t.(patients := t.patients[id := p], patientSeq := id))
  }

  /** POST /: insert, then read the new row back. */
  method Create(db: Database, req: PatientRequest, now: string) returns (res: Response<Patient>)
    modifies db
    ensures Outcome(res, db.Snapshot()) == CreateSpec(old(db.Snapshot()), req, now)
  {
    if !Complete(req) {
      return Failure(400, "All fields are required");
    }
    if !RiskLevelOk(req.riskLevel.value) {
      return Failure(500, INTERNAL_ERROR);
    }
    var id := db.patientSeq + 1;
    db.InsertPatientRow(Patient.Patient(id, None, req.name.value, Some(req.age.value), Some(req.gender.value),
                                        Some(req.village.value), Some(req.symptoms.value), Some(req.vitals.value),
                                        req.riskLevel.value, now));
    res := Success(201, db.patients[id]);
  }

  // ---------------------------------------------------------------------------
  // PUT /:id

  /** The UPDATE binds every field as sent; an absent or null field is
      bound as NULL. */
  function Replaced(p: Patient, req: PatientRequest): Patient
    requires req.name.Given? && req.riskLevel.Given?
  {
    p.(name := req.name.value, age := req.age.ToColumn(), gender := req.gender.ToColumn(),
       village := req.village.ToColumn(), symptoms := req.symptoms.ToColumn(),
       vitals := req.vitals.ToColumn(), riskLevel := req.riskLevel.value)
  }

  /** The UPDATE violates NOT NULL on `name` or `risk_level`, or the CHECK on
      `risk_level`. */
  predicate UpdateRejected(req: PatientRequest) {
    !req.name.Given? || !req.riskLevel.Given? || !RiskLevelOk(req.riskLevel.value)
  }

  function UpdateSpec(t: Tables, id: int, req: PatientRequest): (o: Outcome<Patient>)
    ensures o.response.Failure? ==> o.after == t
    ensures o.response == Failure(404, NOT_FOUND) <==> id !in t.patients
    ensures o.response == Failure(500, INTERNAL_ERROR) <==> id in t.patients && UpdateRejected(req)
    ensures o.response.Success? <==> id in t.patients && !UpdateRejected(req)
    ensures o.response.Success? ==>
      && id in t.patients && !UpdateRejected(req)
      && var p := o.response.body;
      && o.after == t.(patients := t.patients[id := p])
      && p.id == t.patients[id].id && p.userId == t.patients[id].userId && p.createdAt == t.patients[id].createdAt
      && p.name == req.name.value && p.riskLevel == req.riskLevel.value
      && p.age == req.age.ToColumn() && p.gender == req.gender.ToColumn() && p.village == req.village.ToColumn()
      && p.symptoms == req.symptoms.ToColumn() && p.vitals == req.vitals.ToColumn()
  {
    if id !in t.patients then Outcome(Failure(404, NOT_FOUND), t)
    else if UpdateRejected(req) then Outcome(Failure(500, INTERNAL_ERROR), t)
    else
      var p := Replaced(t.patients[id], req);
      Outcome(Success(200, p), t.(patients := t.patients[id := p]))
  }

  /** PUT /:id: look the row up, replace its seven fields, read it back. */
  method Update(db: Database, id: int, req: PatientRequest) returns (res: Response<Patient>)
    modifies db
    ensures Outcome(res, db.Snapshot()) == UpdateSpec(old(db.Snapshot()), id, req)
  {
    if id !in db.patients {
      return Failure(404, NOT_FOUND);
    }
    if UpdateRejected(req) {
      return Failure(500, INTERNAL_ERROR);
    }
    db.patients := db.patients[id := Replaced(db.patients[id], req)];
    res := Success(200, db.patients[id]);
  }

  // ---------------------------------------------------------------------------
  // DELETE /:id

  /** The DELETE removes the row and, through the foreign keys' ON DELETE
      CASCADE, every appointment, note, prescription and baseline that names
      the patient; the slots those appointments held are left as they were. */
  function DeleteSpec(t: Tables, id: int): (o: Outcome<string>)
    ensures o.response.Failure? ==> o.after == t
    ensures o.response.Failure? <==> id !in t.patients
    ensures o.response.Failure? ==> o.response == Failure(404, NOT_FOUND)
    ensures o.response.Success? ==>
      && o.response == Success(200, "Patient deleted")
      && o.after.patients.Keys == t.patients.Keys - {id}
      && o.after.slots == t.slots && o.after.users == t.users && o.after.doctors == t.doctors
      && (forall k :: k in o.after.appointments <==> k in t.appointments && t.appointments[k].patientId != Some(id))
      && (forall k :: k in o.after.notes <==> k in t.notes && t.notes[k].patientId != id)
      && (forall k :: k in o.after.prescriptions <==> k in t.prescriptions && t.prescriptions[k].patientId != id)
      && (forall k :: k in o.after.baselines <==> k in t.baselines && t.baselines[k].patientId != id)
    ensures o.response.Success? ==>
      && o.after == t.(patients := o.after.patients, appointments := o.after.appointments, notes := o.after.notes,
                       prescriptions := o.after.prescriptions, baselines := o.after.baselines)
      && (forall k :: k in o.after.patients ==> o.after.patients[k] == t.patients[k])
      && (forall k :: k in o.after.appointments ==> o.after.appointments[k] == t.appointments[k])
      && (forall k :: k in o.after.notes ==> o.after.notes[k] == t.notes[k])
      && (forall k :: k in o.after.prescriptions ==> o.after.prescriptions[k] == t.prescriptions[k])
      && (forall k :: k in o.after.baselines ==> o.after.baselines[k] == t.baselines[k])
  {
    if id !in t.patients then Outcome(Failure(404, NOT_FOUND), t)
    else Outcome(Success(200, "Patient deleted"), PatientRemoved(t, id))
  }

  method Delete(db: Database, id: int) returns (res: Response<string>)
    modifies db
    ensures Outcome(res, db.Snapshot()) == DeleteSpec(old(db.Snapshot()), id)
  {
    if id !in db.patients {
      return Failure(404, NOT_FOUND);
    }
    // the DELETE and the cascades it triggers
    var r := PatientRemoved(db.Snapshot(), id);
    assert DeleteSpec(db.Snapshot(), id) == Outcome(Success(200, "Patient deleted"), r);
    db.patients, db.appointments, db.notes := r.patients, r.appointments, r.notes;
    db.prescriptions, db.baselines := r.prescriptions, r.baselines;
    res := Success(200, "Patient deleted");
  }

  // ---------------------------------------------------------------------------
  // Invariants

  /** Create keeps the store well formed and every stored risk level one
      the CHECK allows, and leaves the other rows alone. */
  lemma CreateKeepsInvariants(t: Tables, req: PatientRequest, now: string)
    requires WellFormed(t) && RiskLevelsOk(t)
    ensures var after := CreateSpec(t, req, now).after;
      && WellFormed(after) && RiskLevelsOk(after)
      && forall k :: k in t.patients ==> k in after.patients && after.patients[k] == t.patients[k]
  {
    var o := CreateSpec(t, req, now);
    if o.response.Success? {
      assert t.patientSeq + 1 !in t.patients;
    }
  }

  /** Replacing keeps the invariants and changes no other patient row. */
  lemma UpdateKeepsInvariants(t: Tables, id: int, req: PatientRequest)
    requires WellFormed(t) && RiskLevelsOk(t)
    ensures var after := UpdateSpec(t, id, req).after;
      && WellFormed(after) && RiskLevelsOk(after)
      && after.patients.Keys == t.patients.Keys
      && forall k :: k in t.patients && k != id ==> after.patients[k] == t.patients[k]
  {
    var o := UpdateSpec(t, id, req);
    if o.response.Success? {
      assert o.after.patients[id].id == id;
    }
  }

  /** Deleting keeps the invariants, the one-baseline rule and every slot
      reference resolvable, removes exactly that patient row, and leaves no
      row behind that names the patient. */
  lemma DeleteKeepsInvariants(t: Tables, id: int)
    requires WellFormed(t) && RiskLevelsOk(t) && OneBaselineEach(t) && SlotRefsResolve(t)
    ensures var after := DeleteSpec(t, id).after;
      && WellFormed(after) && RiskLevelsOk(after) && OneBaselineEach(after) && SlotRefsResolve(after)
      && after.patients.Keys == t.patients.Keys - {id}
      && (id in t.patients ==>
            && (forall k :: k in after.appointments ==> after.appointments[k].patientId != Some(id))
            && (forall k :: k in after.notes ==> after.notes[k].patientId != id)
            && (forall k :: k in after.prescriptions ==> after.prescriptions[k].patientId != id)
            && (forall k :: k in after.baselines ==> after.baselines[k].patientId != id))
  {
    if id in t.patients {
      var r := PatientRemoved(t, id);
      assert DeleteSpec(t, id).after == r;
      forall k | k in r.appointments ensures r.appointments[k].patientId != Some(id) {
        assert r.appointments[k] == t.appointments[k];
      }
      forall k | k in r.notes ensures r.notes[k].patientId != id {
        assert r.notes[k] == t.notes[k];
      }
      forall k | k in r.prescriptions ensures r.prescriptions[k].patientId != id {
        assert r.prescriptions[k] == t.prescriptions[k];
      }
      forall k | k in r.baselines ensures r.baselines[k].patientId != id {
        assert r.baselines[k] == t.baselines[k];
      }
      forall a | a in r.appointments ensures SlotRefOk(r, r.appointments[a].availabilityId) {
        assert r.appointments[a] == t.appointments[a];
      }
    }
  }
}
