/** `/api/doctors`: the doctor directory (list by name, add). These routes
    take no token. */
module Doctors {
  import opened Base
  import opened TextOrder
  import opened Query
  import opened Schema

  function NameKey(d: Doctor): seq<string> {
    [d.name]
  }

  function AnyDoctor(d: Doctor): bool {
    true
  }

  /** GET /: every doctor, by name. */
  function List(t: Tables): (r: seq<Doctor>)
    requires WellFormed(t)
    ensures forall d :: d in r ==> d.id in t.doctors && t.doctors[d.id] == d
    ensures forall k :: k in t.doctors ==> t.doctors[k] in r
    ensures |r| == |t.doctors|
    ensures forall i, j :: 0 <= i < j < |r| ==> StrLe(r[i].name, r[j].name)
  {
    var rows := SelectSorted(t.doctors, t.doctorSeq, (d: Doctor) => d.id, AnyDoctor, NameKey, false);
    assert SelectedKeys(t.doctors, AnyDoctor) == t.doctors.Keys;
    forall i, j | 0 <= i < j < |rows| ensures StrLe(rows[i].name, rows[j].name) {
      assert Before(NameKey(rows[i]), NameKey(rows[j]), false);
      KeyLeSingle(rows[i].name, rows[j].name);
    }
    rows
  }

  datatype DoctorRequest = DoctorRequest(name: Field<string>, specialization: Field<string>)

  const MISSING := "name and specialization are required"

  function CreateSpec(t: Tables, req: DoctorRequest): (o: Outcome<Doctor>)
    ensures o.response.Failure? ==> o.after == t
    ensures o.response.Failure? <==> !(TruthyStr(req.name) && TruthyStr(req.specialization))
    ensures o.response.Failure? ==> o.response == Failure(400, MISSING)
    ensures o.response.Success? ==>
      var id := t.doctorSeq + 1;
      && o.response == Success(201, Doctor.Doctor(id, req.name.value, req.specialization.value))
      && o.after == t.(doctors := t.doctors[id := o.response.body], doctorSeq := id)
  {
    if !TruthyStr(req.name) || !TruthyStr(req.specialization) then Outcome(Failure(400, MISSING), t)
    else
      var id := t.doctorSeq + 1;
      var d := Doctor.Doctor(id, req.name.value, req.specialization.value);
      Outcome(Success(201, d), t.(doctors := t.doctors[id := d], doctorSeq := id))
  }

  /** POST /: insert, then read the new row back. */
  method Create(db: Database, req: DoctorRequest) returns (res: Response<Doctor>)
    modifies db
    ensures Outcome(res, db.Snapshot()) == CreateSpec(old(db.Snapshot()), req)
  {
    if !TruthyStr(req.name) || !TruthyStr(req.specialization) {
      return Failure(400, MISSING);
    }
    var id := db.doctorSeq + 1;
    db.InsertDoctorRow(Doctor.Doctor(id, req.name.value, req.specialization.value));
    res := Success(201, db.doctors[id]);
  }

  /** The new doctor gets an id no existing doctor has, the store stays well
      formed, and the directory then lists it along with every earlier doctor. */
  lemma CreateListed(t: Tables, req: DoctorRequest)
    requires WellFormed(t)
    ensures var o := CreateSpec(t, req);
      && WellFormed(o.after)
      && (o.response.Success? ==>
            o.response.body.id !in t.doctors && o.response.body in List(o.after)
            && |List(o.after)| == |List(t)| + 1)
  {
    var o := CreateSpec(t, req);
    if o.response.Success? {
      var id := t.doctorSeq + 1;
      var after := o.after;
      assert id !in t.doctors;
      assert WellFormed(after);
      assert after.doctors == t.doctors[id := o.response.body];
      assert |after.doctors| == |t.doctors| + 1;
      var l := List(after);
      assert after.doctors[id] in l;
    }
  }
}
