/** `/api/consultations`: consultation notes, listed with the patient's
    name, added for an existing patient, and deleted. These routes take no
    token. */
module Consultations {
  import opened Base
  import opened TextOrder
  import opened Query
  import opened Schema

  /** `SELECT cn.*, p.name as patient_name`: a note with its patient's name. */
  datatype NoteView = NoteView(note: Note, patientName: string)

  /** The inner join keeps a note whose patient exists. */
  predicate Joined(t: Tables, n: Note) {
    n.patientId in t.patients
  }

  function ViewOf(t: Tables, n: Note): NoteView {
    NoteView(n, if n.patientId in t.patients then t.patients[n.patientId].name else "")
  }

  function CreatedKey(n: Note): seq<string> {
    [n.createdAt]
  }

  /** The notes the list shows, for every patient (None) or for one. */
  predicate Shown(t: Tables, patient: Option<int>, n: Note) {
    Joined(t, n) && (patient.Some? ==> n.patientId == patient.value)
  }

  function ShownIds(t: Tables, patient: Option<int>): set<int> {
    set k | k in t.notes && Shown(t, patient, t.notes[k])
  }

  function ShownRows(t: Tables, patient: Option<int>): (rows: seq<Note>)
    requires WellFormed(t)
    ensures forall x :: x in rows ==> x.id in t.notes && t.notes[x.id] == x && Shown(t, patient, x)
    ensures forall k :: k in t.notes && Shown(t, patient, t.notes[k]) ==> t.notes[k] in rows
    ensures |rows| == |ShownIds(t, patient)|
    ensures SortedByKey(rows, CreatedKey, true)
  {
    var keep := (n: Note) => Shown(t, patient, n);
    var rows := SelectSorted(t.notes, t.noteSeq, (n: Note) => n.id, keep, CreatedKey, true);
    assert SelectedKeys(t.notes, keep) == ShownIds(t, patient);
    rows
  }

  /** GET / (patient = None) and GET /patient/:patient_id: the notes whose
      patient exists, restricted to that patient if one is named, each with
      its patient's name, newest first. */
  function List(t: Tables, patient: Option<int>): (r: seq<NoteView>)
    requires WellFormed(t)
    ensures forall v :: v in r ==>
      && v.note.id in t.notes && t.notes[v.note.id] == v.note
      && v.note.patientId in t.patients && v.patientName == t.patients[v.note.patientId].name
      && (patient.Some? ==> v.note.patientId == patient.value)
    ensures forall k ::
      (k in t.notes && t.notes[k].patientId in t.patients && (patient.Some? ==> t.notes[k].patientId == patient.value))
      ==> ViewOf(t, t.notes[k]) in r
    ensures |r| == |ShownIds(t, patient)|
    ensures forall i, j :: 0 <= i < j < |r| ==> StrLe(r[j].note.createdAt, r[i].note.createdAt)
  {
    var rows := ShownRows(t, patient);
    var r := Mapped(rows, x => ViewOf(t, x));
    ListViews(t, patient, rows, r);
    r
  }

  lemma ListViews(t: Tables, patient: Option<int>, rows: seq<Note>, r: seq<NoteView>)
    requires forall i :: 0 <= i < |rows| ==> Shown(t, patient, rows[i])
    requires |r| == |rows| && forall i :: 0 <= i < |rows| ==> r[i] == ViewOf(t, rows[i])
    requires SortedByKey(rows, CreatedKey, true)
    ensures forall v :: v in r ==> v.note in rows && Shown(t, patient, v.note) && v == ViewOf(t, v.note)
    ensures forall x :: x in rows ==> ViewOf(t, x) in r
    ensures forall i, j :: 0 <= i < j < |r| ==> StrLe(r[j].note.createdAt, r[i].note.createdAt)
  {
    forall i, j | 0 <= i < j < |r| ensures StrLe(r[j].note.createdAt, r[i].note.createdAt) {
      assert Before(CreatedKey(rows[i]), CreatedKey(rows[j]), true);
      KeyLeSingle(r[j].note.createdAt, r[i].note.createdAt);
    }
    forall v | v in r ensures v.note in rows && Shown(t, patient, v.note) && v == ViewOf(t, v.note) {
      var i :| 0 <= i < |r| && r[i] == v;
      assert rows[i] in rows;
    }
    forall x | x in rows ensures ViewOf(t, x) in r {
      var i :| 0 <= i < |rows| && rows[i] == x;
      assert r[i] == ViewOf(t, x);
    }
  }

  /** The per-patient list is the full list with the other patients' notes
      taken out. */
  lemma PatientListIsSubset(t: Tables, patient: int)
    requires WellFormed(t)
    ensures forall v :: v in List(t, Some(patient)) ==> v in List(t, None) && v.note.patientId == patient
    ensures forall v :: v in List(t, None) && v.note.patientId == patient ==> v in List(t, Some(patient))
  {
    forall v | v in List(t, Some(patient)) ensures v in List(t, None) {
      assert t.notes[v.note.id] == v.note;
    }
    forall v | v in List(t, None) && v.note.patientId == patient ensures v in List(t, Some(patient)) {
      assert t.notes[v.note.id] == v.note;
    }
  }

  // ---------------------------------------------------------------------------
  // POST /

  datatype NoteRequest = NoteRequest(
    patientId: Field<int>, rawNote: Field<string>, summary: Field<string>, followUpDays: Field<int>)

  const MISSING := "patient_id and raw_note are required"

  /** `x || null`: a falsy value is stored as NULL. */
  function OrNullStr(f: Field<string>): (r: Option<string>)
    ensures r.Some? <==> TruthyStr(f)
    ensures r.Some? ==> r.value == f.value
  {
    if TruthyStr(f) then Some(f.value) else None
  }

  function OrNullInt(f: Field<int>): (r: Option<int>)
    ensures r.Some? <==> TruthyInt(f)
    ensures r.Some? ==> r.value == f.value
  {
    if TruthyInt(f) then Some(f.value) else None
  }

  function CreateSpec(t: Tables, req: NoteRequest, now: string): (o: Outcome<Note>)
    ensures o.response.Failure? ==> o.after == t
    ensures o.response == Failure(400, MISSING) <==> !(TruthyInt(req.patientId) && TruthyStr(req.rawNote))
    ensures o.response == Failure(404, "Patient not found") <==>
      TruthyInt(req.patientId) && TruthyStr(req.rawNote) && req.patientId.value !in t.patients
    ensures o.response.Success? <==>
      TruthyInt(req.patientId) && TruthyStr(req.rawNote) && req.patientId.value in t.patients
    ensures o.response.Success? ==>
      var id := t.noteSeq + 1;
      var n := o.response.body;
      && TruthyInt(req.patientId) && TruthyStr(req.rawNote) && req.patientId.value in t.patients
      && o.response.status == 201
      && n.id == id && n.patientId == req.patientId.value && n.rawNote == req.rawNote.value && n.createdAt == now
      && (n.summary.Some? <==> TruthyStr(req.summary)) && (n.summary.Some? ==> n.summary.value == req.summary.value)
      && (n.followUpDays.Some? <==> TruthyInt(req.followUpDays))
      && (n.followUpDays.Some? ==> n.followUpDays.value == req.followUpDays.value)
      && o.after == t.(notes := t.notes[id := n], noteSeq := id)
  {
    if !TruthyInt(req.patientId) || !TruthyStr(req.rawNote) then Outcome(Failure(400, MISSING), t)
    else if req.patientId.value !in t.patients then Outcome(Failure(404, "Patient not found"), t)
    else
      var id := t.noteSeq + 1;
      var n := Note(id, req.patientId.value, req.rawNote.value, OrNullStr(req.summary), OrNullInt(req.followUpDays), now);
      Outcome(Success(201, n), t.(notes := t.notes[id := n], noteSeq := id))
  }

  /** POST /: check the patient, insert, read the new note back. */
  method Create(db: Database, req: NoteRequest, now: string) returns (res: Response<Note>)
    modifies db
    ensures Outcome(res, db.Snapshot()) == CreateSpec(old(db.Snapshot()), req, now)
  {
    if !TruthyInt(req.patientId) || !TruthyStr(req.rawNote) {
      return Failure(400, MISSING);
    }
    if req.patientId.value !in db.patients {
      return Failure(404, "Patient not found");
    }
    var id := db.noteSeq + 1;
    db.InsertNoteRow(Note(id, req.patientId.value, req.rawNote.value, OrNullStr(req.summary), OrNullInt(req.followUpDays), now));
    res := Success(201, db.notes[id]);
  }

  /** A note added through POST / shows up in its patient's list. */
  lemma CreatedNoteListed(t: Tables, req: NoteRequest, now: string)
    requires WellFormed(t)
    requires CreateSpec(t, req, now).response.Success?
    ensures var o := CreateSpec(t, req, now);
      WellFormed(o.after) && ViewOf(o.after, o.response.body) in List(o.after, Some(req.patientId.value))
  {
    var o := CreateSpec(t, req, now);
    var id := t.noteSeq + 1;
    assert WellFormed(o.after);
    assert o.after.notes[id] == o.response.body;
  }

  // ---------------------------------------------------------------------------
  // DELETE /:id

  function DeleteSpec(t: Tables, id: int): (o: Outcome<string>)
    ensures o.response.Failure? ==> o.after == t
    ensures o.response.Failure? <==> id !in t.notes
    ensures o.response.Failure? ==> o.response == Failure(404, "Note not found")
    ensures o.response.Success? ==>
      o.response == Success(200, "Note deleted") && o.after == t.(notes := t.notes - {id})
  {
    if id !in t.notes then Outcome(Failure(404, "Note not found"), t)
    else Outcome(Success(200, "Note deleted"), t.(notes := t.notes - {id}))
  }

  method Delete(db: Database, id: int) returns (res: Response<string>)
    modifies db
    ensures Outcome(res, db.Snapshot()) == DeleteSpec(old(db.Snapshot()), id)
  {
    if id !in db.notes {
      return Failure(404, "Note not found");
    }
    db.notes := db.notes - {id};
    res := Success(200, "Note deleted");
  }
}
