/** The clinic's relational store: one record type per table, every table as a
    map from its primary key to its row, and the AUTOINCREMENT counter of each
    table that has one. `Database` is the process-wide handle the route
    handlers update in place; `Tables` is its value at one instant. */
module Schema {
  import opened Base

  datatype User = User(id: int, name: string, email: string, password: string, role: Role, createdAt: string)

  datatype Doctor = Doctor(id: int, name: string, specialization: string)

  /** `user_id` is null for a patient the staff registered; the clinical
      columns are null for a patient who registered themselves. */
  datatype Patient = Patient(
    id: int, userId: Option<int>, name: string, age: Option<int>, gender: Option<string>,
    village: Option<string>, symptoms: Option<string>, vitals: Option<string>,
    riskLevel: string, createdAt: string)

  /** A row of `patient_vitals`, the durable baseline the feed jitters. */
  datatype Baseline = Baseline(id: int, patientId: int, heartRate: int, spo2: int, glucose: int)

  /** A row of `doctor_availability`. */
  datatype Slot = Slot(id: int, doctorId: int, date: string, startTime: string, endTime: string, isBooked: bool)

  datatype Appointment = Appointment(
    id: int, patientId: Option<int>, userId: Option<int>, doctorId: int,
    availabilityId: Option<int>, date: string, status: string)

  /** A row of `consultation_notes`. */
  datatype Note = Note(
    id: int, patientId: int, rawNote: string, summary: Option<string>,
    followUpDays: Option<int>, createdAt: string)

  datatype Medicine = Medicine(id: string, name: string, category: string, strength: string, price: real, stock: int)

  datatype Prescription = Prescription(
    id: int, patientId: int, doctorId: int, medicineId: string, status: string,
    createdAt: string, dispensedAt: Option<string>)

  /** The CHECK constraint on `appointments.status`. */
  predicate AppointmentStatusOk(s: string) {
    s == "scheduled" || s == "completed"
  }

  /** The CHECK constraint on `patients.risk_level`. */
  predicate RiskLevelOk(s: string) {
    s == "low" || s == "medium" || s == "high"
  }

  /** The UNIQUE constraint on `patient_vitals.patient_id`. */
  ghost predicate OneBaselineEach(t: Tables) {
    forall a, b :: a in t.baselines && b in t.baselines && t.baselines[a].patientId == t.baselines[b].patientId ==> a == b
  }

  // ---------------------------------------------------------------------------
  // Foreign keys. The engine enforces them on every write: an INSERT or
  // UPDATE whose referencing column names no row throws, and deleting a
  // parent row runs the column's ON DELETE action.

  /** A nullable reference to `patients(id)` is NULL or names a patient. */
  predicate PatientRefOk(t: Tables, ref: Option<int>) {
    ref.None? || ref.value in t.patients
  }

  /** A nullable reference to `users(id)` is NULL or names an account. */
  predicate UserRefOk(t: Tables, ref: Option<int>) {
    ref.None? || ref.value in t.users
  }

  /** A nullable reference to `doctor_availability(id)` is NULL or names a slot. */
  predicate SlotRefOk(t: Tables, ref: Option<int>) {
    ref.None? || ref.value in t.slots
  }

  /** The foreign key on `appointments.availability_id` holds in every row. */
  ghost predicate SlotRefsResolve(t: Tables) {
    forall a :: a in t.appointments ==> SlotRefOk(t, t.appointments[a].availabilityId)
  }

  /** The message of the error a violated foreign key throws. */
  const FOREIGN_KEY_FAILED := "FOREIGN KEY constraint failed"

  /** `DELETE FROM patients`: ON DELETE CASCADE removes the patient's
      appointments, consultation notes, prescriptions and baseline with it. */
  function PatientRemoved(t: Tables, id: int): (r: Tables)
    ensures r == t.(patients := r.patients, appointments := r.appointments, notes := r.notes,
                    prescriptions := r.prescriptions, baselines := r.baselines)
    ensures r.patients.Keys == t.patients.Keys - {id}
    ensures forall k :: k in r.appointments <==> k in t.appointments && t.appointments[k].patientId != Some(id)
    ensures forall k :: k in r.notes <==> k in t.notes && t.notes[k].patientId != id
    ensures forall k :: k in r.prescriptions <==> k in t.prescriptions && t.prescriptions[k].patientId != id
    ensures forall k :: k in r.baselines <==> k in t.baselines && t.baselines[k].patientId != id
    ensures forall k :: k in r.patients ==> r.patients[k] == t.patients[k]
    ensures forall k :: k in r.appointments ==> r.appointments[k] == t.appointments[k]
    ensures forall k :: k in r.notes ==> r.notes[k] == t.notes[k]
    ensures forall k :: k in r.prescriptions ==> r.prescriptions[k] == t.prescriptions[k]
    ensures forall k :: k in r.baselines ==> r.baselines[k] == t.baselines[k]
  {
    t.(patients := t.patients - {id},
       appointments := Kept(t.appointments, (a: Appointment) => a.patientId == Some(id)),
       notes := Kept(t.notes, (n: Note) => n.patientId == id),
       prescriptions := Kept(t.prescriptions, (p: Prescription) => p.patientId == id),
       baselines := Kept(t.baselines, (b: Baseline) => b.patientId == id))
  }

  /** The rows of m that a cascade does not reach. */
  function Kept<V>(m: map<int, V>, gone: V -> bool): (r: map<int, V>)
    ensures forall k :: k in r <==> k in m && !gone(m[k])
    ensures forall k :: k in r ==> r[k] == m[k]
  {
    map k | k in m && !gone(m[k]) :: m[k]
  }

  /** `DELETE FROM doctor_availability`: ON DELETE SET NULL clears the slot
      reference of every appointment that held the slot. */
  function SlotRemoved(t: Tables, id: int): (r: Tables)
    ensures r == t.(slots := r.slots, appointments := r.appointments)
    ensures r.slots == t.slots - {id}
    ensures r.appointments.Keys == t.appointments.Keys
    ensures forall k :: k in t.appointments ==>
      r.appointments[k] == if t.appointments[k].availabilityId == Some(id)
                           then t.appointments[k].(availabilityId := None) else t.appointments[k]
  {
    t.(slots := t.slots - {id},
       appointments := map k | k in t.appointments ::
         if t.appointments[k].availabilityId == Some(id) then t.appointments[k].(availabilityId := None)
         else t.appointments[k])
  }

  const PENDING := "pending"
  const DISPENSED := "dispensed"

  /** The whole store at one instant. `medicines` is keyed by its TEXT
      primary key; `migrations` is the set of applied migration names. */
  datatype Tables = Tables(
    users: map<int, User>, userSeq: int,
    doctors: map<int, Doctor>, doctorSeq: int,
    patients: map<int, Patient>, patientSeq: int,
    baselines: map<int, Baseline>, baselineSeq: int,
    slots: map<int, Slot>, slotSeq: int,
    appointments: map<int, Appointment>, appointmentSeq: int,
    notes: map<int, Note>, noteSeq: int,
    medicines: map<string, Medicine>,
    prescriptions: map<int, Prescription>, prescriptionSeq: int,
    migrations: set<string>)

  /** What a request leaves behind: the response and the store after it. */
  datatype Outcome<+T> = Outcome(response: Response<T>, after: Tables)

  /** Every row sits under its own primary key, and every AUTOINCREMENT key
      lies between 1 and its table's counter, so counter + 1 is always fresh. */
  ghost predicate WellFormed(t: Tables) {
    && 0 <= t.userSeq && 0 <= t.doctorSeq && 0 <= t.patientSeq && 0 <= t.baselineSeq && 0 <= t.slotSeq
    && 0 <= t.appointmentSeq && 0 <= t.noteSeq && 0 <= t.prescriptionSeq
    && (forall k :: k in t.users ==> 1 <= k <= t.userSeq && t.users[k].id == k)
    && (forall k :: k in t.doctors ==> 1 <= k <= t.doctorSeq && t.doctors[k].id == k)
    && (forall k :: k in t.patients ==> 1 <= k <= t.patientSeq && t.patients[k].id == k)
    && (forall k :: k in t.baselines ==> 1 <= k <= t.baselineSeq && t.baselines[k].id == k)
    && (forall k :: k in t.slots ==> 1 <= k <= t.slotSeq && t.slots[k].id == k)
    && (forall k :: k in t.appointments ==> 1 <= k <= t.appointmentSeq && t.appointments[k].id == k)
    && (forall k :: k in t.notes ==> 1 <= k <= t.noteSeq && t.notes[k].id == k)
    && (forall k :: k in t.medicines ==> t.medicines[k].id == k)
    && (forall k :: k in t.prescriptions ==> 1 <= k <= t.prescriptionSeq && t.prescriptions[k].id == k)
  }

  /** Inserting a user under the next key keeps the store well formed. */
  lemma UserInsertKeepsWellFormed(t: Tables, u: User)
    requires WellFormed(t) && u.id == t.userSeq + 1
    ensures WellFormed(t.(users := t.users[u.id := u], userSeq := u.id))
  {
  }

  /** Inserting a patient under the next key keeps the store well formed. */
  lemma PatientInsertKeepsWellFormed(t: Tables, p: Patient)
    requires WellFormed(t) && p.id == t.patientSeq + 1
    ensures WellFormed(t.(patients := t.patients[p.id := p], patientSeq := p.id))
  {
  }

  /** Inserting a doctor under the next key keeps the store well formed. */
  lemma DoctorInsertKeepsWellFormed(t: Tables, d: Doctor)
    requires WellFormed(t) && d.id == t.doctorSeq + 1
    ensures WellFormed(t.(doctors := t.doctors[d.id := d], doctorSeq := d.id))
  {
  }

  /** A database file just created by the schema script: every table empty. */
  const EmptyTables := Tables(map[], 0, map[], 0, map[], 0, map[], 0, map[], 0, map[], 0, map[], 0, map[], map[], 0, {})

  /** The shared database handle; route handlers change its tables in place. */
  class Database {
    var users: map<int, User>
    var userSeq: int
    var doctors: map<int, Doctor>
    var doctorSeq: int
    var patients: map<int, Patient>
    var patientSeq: int
    var baselines: map<int, Baseline>
    var baselineSeq: int
    var slots: map<int, Slot>
    var slotSeq: int
    var appointments: map<int, Appointment>
    var appointmentSeq: int
    var notes: map<int, Note>
    var noteSeq: int
    var medicines: map<string, Medicine>
    var prescriptions: map<int, Prescription>
    var prescriptionSeq: int
    var migrations: set<string>

    /** The tables as they stand now. */
    function Snapshot(): Tables
      reads this
    {
      Tables(users, userSeq, doctors, doctorSeq, patients, patientSeq, baselines, baselineSeq, slots, slotSeq,
             appointments, appointmentSeq, notes, noteSeq, medicines, prescriptions, prescriptionSeq,
             migrations)
    }

    ghost predicate Valid()
      reads this
    {
      WellFormed(Snapshot())
    }

    /** Opens a database file whose tables the schema script has just created. */
    constructor Open()
      ensures Valid() && Snapshot() == EmptyTables
    {
      users, userSeq := map[], 0;
      doctors, doctorSeq := map[], 0;
      patients, patientSeq := map[], 0;
      baselines, baselineSeq := map[], 0;
      slots, slotSeq := map[], 0;
      appointments, appointmentSeq := map[], 0;
      notes, noteSeq := map[], 0;
      medicines := map[];
      prescriptions, prescriptionSeq := map[], 0;
      migrations := {};
    }

    /** `INSERT INTO users`: the row goes under its id, which becomes the counter. */
    method InsertUserRow(u: User)
      modifies this
      ensures Snapshot() == old(Snapshot()).(users := old(users)[u.id := u], userSeq := u.id)
    {
      users := users[u.id := u];
      userSeq := u.id;
    }

    /** `INSERT INTO patients`. */
    method InsertPatientRow(p: Patient)
      modifies this
      ensures Snapshot() == old(Snapshot()).(patients := old(patients)[p.id := p], patientSeq := p.id)
    {
      patients := patients[p.id := p];
      patientSeq := p.id;
    }

    /** `INSERT INTO doctors`. */
    method InsertDoctorRow(d: Doctor)
      modifies this
      ensures Snapshot() == old(Snapshot()).(doctors := old(doctors)[d.id := d], doctorSeq := d.id)
    {
      doctors := doctors[d.id := d];
      doctorSeq := d.id;
    }

    /** `INSERT INTO doctor_availability`. */
    method InsertSlotRow(s: Slot)
      modifies this
      ensures Snapshot() == old(Snapshot()).(slots := old(slots)[s.id := s], slotSeq := s.id)
    {
      slots := slots[s.id := s];
      slotSeq := s.id;
    }

    /** `INSERT INTO appointments`. */
    method InsertAppointmentRow(a: Appointment)
      modifies this
      ensures Snapshot() == old(Snapshot()).(appointments := old(appointments)[a.id := a], appointmentSeq := a.id)
    {
      appointments := appointments[a.id := a];
      appointmentSeq := a.id;
    }

    /** `INSERT INTO consultation_notes`. */
    method InsertNoteRow(n: Note)
      modifies this
      ensures Snapshot() == old(Snapshot()).(notes := old(notes)[n.id := n], noteSeq := n.id)
    {
      notes := notes[n.id := n];
      noteSeq := n.id;
    }

    /** `INSERT INTO prescriptions`. */
    method InsertPrescriptionRow(p: Prescription)
      modifies this
      ensures Snapshot() == old(Snapshot()).(prescriptions := old(prescriptions)[p.id := p], prescriptionSeq := p.id)
    {
      prescriptions := prescriptions[p.id := p];
      prescriptionSeq := p.id;
    }
  }
}
