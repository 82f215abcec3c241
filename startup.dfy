/** What loading the database module does every time the server starts:
    the four one-off table rebuilds, each gated by its marker in
    `migrations`, then the seeds, each gated by a count, and the baseline
    vitals of every patient that has none. bcrypt's hashes of the two default
    passwords are parameters, as is the clock. */
module Startup {
  import opened Base
  import opened Query
  import opened Schema
  import opened AuthRoutes
  import VitalsUtils

  // ---------------------------------------------------------------------------
  // Migrations

  datatype Migration = AppointmentsAddUserId | PatientsAddUserId | AppointmentsAddAvailabilityId | UsersAddPharmacyRole

  /** The name a migration records in `migrations` once it has run. */
  function Marker(m: Migration): string {
    match m
    case AppointmentsAddUserId => "appointments_add_user_id"
    case PatientsAddUserId => "patients_add_user_id"
    case AppointmentsAddAvailabilityId => "appointments_add_availability_id"
    case UsersAddPharmacyRole => "users_add_pharmacy_role"
  }

  /** The AUTOINCREMENT counter of a rebuilt table: copying rows with their
      ids into a fresh table leaves its counter at the largest id copied, or
      0 when none was. Keys are scanned from n down. */
  function LargestKey<T>(m: map<int, T>, n: int): (r: int)
    ensures 0 <= r
    ensures r == 0 || (r in m && r <= n)
    ensures forall k :: k in m && k <= n ==> k <= r
    decreases n
  {
    if n <= 0 then 0 else if n in m then n else LargestKey(m, n - 1)
  }

  /** `SELECT id, patient_id, NULL, ...` into the rebuilt `appointments`. */
  function NullUserIds(m: map<int, Appointment>): (r: map<int, Appointment>)
    ensures r.Keys == m.Keys
    ensures forall k :: k in m ==> r[k] == m[k].(userId := None)
  {
    map k | k in m :: m[k].(userId := None)
  }

  /** The copy into the rebuilt `appointments` that leaves `availability_id` out. */
  function NullAvailabilityIds(m: map<int, Appointment>): (r: map<int, Appointment>)
    ensures r.Keys == m.Keys
    ensures forall k :: k in m ==> r[k] == m[k].(availabilityId := None)
  {
    map k | k in m :: m[k].(availabilityId := None)
  }

  /** `SELECT id, NULL, name, ...` into the rebuilt `patients`. */
  function NullPatientUserIds(m: map<int, Patient>): (r: map<int, Patient>)
    ensures r.Keys == m.Keys
    ensures forall k :: k in m ==> r[k] == m[k].(userId := None)
  {
    map k | k in m :: m[k].(userId := None)
  }

  /** The rows after a rebuild: every row keeps its id and the columns the
      old table had; the column the rebuild adds is NULL. */
  function Rebuilt(t: Tables, m: Migration): Tables {
    match m
    case AppointmentsAddUserId =>
      t.(appointments := NullUserIds(t.appointments), appointmentSeq := LargestKey(t.appointments, t.appointmentSeq))
    case PatientsAddUserId =>
      t.(patients := NullPatientUserIds(t.patients), patientSeq := LargestKey(t.patients, t.patientSeq))
    case AppointmentsAddAvailabilityId =>
      t.(appointments := NullAvailabilityIds(t.appointments),
         appointmentSeq := LargestKey(t.appointments, t.appointmentSeq))
    case UsersAddPharmacyRole =>
      t.(userSeq := LargestKey(t.users, t.userSeq))
  }

  /** Replacing the appointments by rows under their own ids, all below the
      new counter, keeps the store well formed. */
  lemma WithAppointments(t: Tables, rows: map<int, Appointment>, n: int)
    requires WellFormed(t) && 0 <= n
    requires forall k :: k in rows ==> 1 <= k <= n && rows[k].id == k
    ensures WellFormed(t.(appointments := rows, appointmentSeq := n))
  {
  }

  /** The same for the patients. */
  lemma WithPatients(t: Tables, rows: map<int, Patient>, n: int)
    requires WellFormed(t) && 0 <= n
    requires forall k :: k in rows ==> 1 <= k <= n && rows[k].id == k
    ensures WellFormed(t.(patients := rows, patientSeq := n))
  {
  }

  /** A rebuild keeps the store well formed and its baselines as they were. */
  lemma RebuiltKeepsWellFormed(t: Tables, m: Migration)
    requires WellFormed(t)
    ensures WellFormed(Rebuilt(t, m)) && Rebuilt(t, m).baselines == t.baselines
  {
    match m
    case AppointmentsAddUserId =>
      WithAppointments(t, NullUserIds(t.appointments), LargestKey(t.appointments, t.appointmentSeq));
    case PatientsAddUserId =>
      WithPatients(t, NullPatientUserIds(t.patients), LargestKey(t.patients, t.patientSeq));
    case AppointmentsAddAvailabilityId =>
      WithAppointments(t, NullAvailabilityIds(t.appointments), LargestKey(t.appointments, t.appointmentSeq));
    case UsersAddPharmacyRole =>
  }

  /** One gated migration block: the rebuild runs only while its marker is
      absent, and the marker is recorded after it. */
  function MigrationStep(t: Tables, m: Migration): (r: Tables)
    ensures Marker(m) in r.migrations
    ensures Marker(m) in t.migrations ==> r == t
    ensures Marker(m) !in t.migrations ==> r == Rebuilt(t, m).(migrations := t.migrations + {Marker(m)})
  {
    if Marker(m) in t.migrations then t
    else Rebuilt(t, m).(migrations := t.migrations + {Marker(m)})
  }

  /** `DROP TABLE` and `ALTER TABLE ... RENAME`: the appointments table is
      replaced by the copied rows, with the copy's counter. */
  method ReplaceAppointments(db: Database, rows: map<int, Appointment>, n: int)
    modifies db
    ensures db.Snapshot() == old(db.Snapshot()).(appointments := rows, appointmentSeq := n)
  {
    db.appointments, db.appointmentSeq := rows, n;
  }

  /** The same for the patients table. */
  method ReplacePatients(db: Database, rows: map<int, Patient>, n: int)
    modifies db
    ensures db.Snapshot() == old(db.Snapshot()).(patients := rows, patientSeq := n)
  {
    db.patients, db.patientSeq := rows, n;
  }

  /** The table-rebuild script of one migration. */
  method Rebuild(db: Database, m: Migration)
    modifies db
    ensures db.Snapshot() == Rebuilt(old(db.Snapshot()), m)
  {
    match m {
      case AppointmentsAddUserId =>
        ReplaceAppointments(db, NullUserIds(db.appointments), LargestKey(db.appointments, db.appointmentSeq));
      case PatientsAddUserId =>
        ReplacePatients(db, NullPatientUserIds(db.patients), LargestKey(db.patients, db.patientSeq));
      case AppointmentsAddAvailabilityId =>
        ReplaceAppointments(db, NullAvailabilityIds(db.appointments), LargestKey(db.appointments, db.appointmentSeq));
      case UsersAddPharmacyRole =>
        db.userSeq := LargestKey(db.users, db.userSeq);
    }
  }

  /** One migration block: skipped when its marker is recorded, otherwise
      the rebuild and then the marker. */
  method ApplyMigration(db: Database, m: Migration)
    modifies db
    ensures db.Snapshot() == MigrationStep(old(db.Snapshot()), m)
  {
    if Marker(m) in db.migrations {
      return;
    }
    Rebuild(db, m);
    db.migrations := db.migrations + {Marker(m)};
  }

  /** The four migration blocks in file order. */
  function Migrated(t: Tables): (r: Tables)
    ensures forall m :: Marker(m) in r.migrations
    ensures (forall m :: Marker(m) in t.migrations) ==> r == t
  {
    MigrationStep(MigrationStep(MigrationStep(MigrationStep(t, AppointmentsAddUserId), PatientsAddUserId),
                                AppointmentsAddAvailabilityId), UsersAddPharmacyRole)
  }

  lemma MigrationStepKeepsWellFormed(t: Tables, m: Migration)
    requires WellFormed(t) && OneBaselineEach(t)
    ensures WellFormed(MigrationStep(t, m)) && OneBaselineEach(MigrationStep(t, m))
    ensures MigrationStep(t, m).baselines == t.baselines
  {
    RebuiltKeepsWellFormed(t, m);
    if Marker(m) !in t.migrations {
      var r := Rebuilt(t, m);
      assert MigrationStep(t, m) == r.(migrations := t.migrations + {Marker(m)});
      assert WellFormed(r) && r.baselines == t.baselines;
    }
  }

  lemma MigratedKeepsWellFormed(t: Tables)
    requires WellFormed(t) && OneBaselineEach(t)
    ensures WellFormed(Migrated(t)) && OneBaselineEach(Migrated(t))
    ensures Migrated(t).baselines == t.baselines
  {
    var t1 := MigrationStep(t, AppointmentsAddUserId);
    MigrationStepKeepsWellFormed(t, AppointmentsAddUserId);
    var t2 := MigrationStep(t1, PatientsAddUserId);
    MigrationStepKeepsWellFormed(t1, PatientsAddUserId);
    var t3 := MigrationStep(t2, AppointmentsAddAvailabilityId);
    MigrationStepKeepsWellFormed(t2, AppointmentsAddAvailabilityId);
    MigrationStepKeepsWellFormed(t3, UsersAddPharmacyRole);
  }

  lemma MigrationStepKeepsUsers(t: Tables, m: Migration)
    ensures MigrationStep(t, m).users == t.users
  {
  }

  /** No rebuild changes an account: the users rebuild copies every row. */
  lemma MigratedKeepsUsers(t: Tables)
    ensures Migrated(t).users == t.users
  {
    var t1 := MigrationStep(t, AppointmentsAddUserId);
    MigrationStepKeepsUsers(t, AppointmentsAddUserId);
    var t2 := MigrationStep(t1, PatientsAddUserId);
    MigrationStepKeepsUsers(t1, PatientsAddUserId);
    var t3 := MigrationStep(t2, AppointmentsAddAvailabilityId);
    MigrationStepKeepsUsers(t2, AppointmentsAddAvailabilityId);
    MigrationStepKeepsUsers(t3, UsersAddPharmacyRole);
  }

  // ---------------------------------------------------------------------------
  // Count-gated seeds

  /** The four default doctors, as (name, specialization). */
  const SAMPLE_DOCTORS: seq<(string, string)> := [
    ("Dr. Priya Sharma", "General Medicine"),
    ("Dr. Ravi Kumar", "Pediatrics"),
    ("Dr. Anita Patel", "Obstetrics & Gynecology"),
    ("Dr. Suresh Rao", "Emergency Medicine")]

  /** `INSERT INTO doctors (name, specialization)`. */
  function AddDoctor(t: Tables, d: (string, string)): Tables {
    var id := t.doctorSeq + 1;
    t.(doctors := t.doctors[id := Doctor.Doctor(id, d.0, d.1)], doctorSeq := id)
  }

  /** The doctors table after inserting ds, one after another, above the
      counter n: the i-th gets key n + i + 1. */
  function PutDoctors(m: map<int, Doctor>, n: int, ds: seq<(string, string)>): map<int, Doctor>
    decreases |ds|
  {
    if ds == [] then m
    else
      var id := n + |ds|;
      PutDoctors(m, n, ds[..|ds| - 1])[id := Doctor.Doctor(id, ds[|ds| - 1].0, ds[|ds| - 1].1)]
  }

  /** The inserts write `doctors` and its counter only. */
  function AddDoctors(t: Tables, ds: seq<(string, string)>): Tables {
    t.(doctors := PutDoctors(t.doctors, t.doctorSeq, ds), doctorSeq := t.doctorSeq + |ds|)
  }

  /** Inserting ds puts its i-th row under n + i + 1 and touches no other key. */
  lemma {:induction false} PutDoctorsRows(m: map<int, Doctor>, n: int, ds: seq<(string, string)>)
    ensures var r := PutDoctors(m, n, ds);
      && (forall k :: k in r <==> k in m || n < k <= n + |ds|)
      && (forall k :: k in m && !(n < k <= n + |ds|) ==> r[k] == m[k])
      && (forall i :: 0 <= i < |ds| ==> r[n + i + 1] == Doctor.Doctor(n + i + 1, ds[i].0, ds[i].1))
    decreases |ds|
  {
    if ds != [] {
      var init := ds[..|ds| - 1];
      PutDoctorsRows(m, n, init);
      assert forall i :: 0 <= i < |init| ==> init[i] == ds[i];
    }
  }

  /** Inserting ds above the counter keeps every key within 1..counter. */
  lemma {:induction false} PutDoctorsKeyed(m: map<int, Doctor>, n: int, ds: seq<(string, string)>)
    requires forall k :: k in m ==> 1 <= k <= n && m[k].id == k
    requires 0 <= n
    ensures var r := PutDoctors(m, n, ds);
      && (forall k :: k in r ==> 1 <= k <= n + |ds| && r[k].id == k)
      && (ds != [] ==> n + 1 in r)
    decreases |ds|
  {
    if ds != [] {
      PutDoctorsKeyed(m, n, ds[..|ds| - 1]);
    }
  }

  lemma AddDoctorsStep(t: Tables, ds: seq<(string, string)>, i: int)
    requires 0 <= i < |ds|
    ensures AddDoctors(t, ds[..i + 1]) == AddDoctor(AddDoctors(t, ds[..i]), ds[i])
  {
    assert ds[..i + 1][..i] == ds[..i];
  }

  method InsertDoctor(db: Database, name: string, specialization: string)
    modifies db
    ensures db.Snapshot() == AddDoctor(old(db.Snapshot()), (name, specialization))
  {
    var id := db.doctorSeq + 1;
    db.doctors := db.doctors[id := Doctor.Doctor(id, name, specialization)];
    db.doctorSeq := id;
  }

  /** The doctor seed: the sample doctors, only into an empty table. */
  function SeedDoctors(t: Tables): (r: Tables)
    ensures |t.doctors| != 0 ==> r == t
    ensures |t.doctors| == 0 ==> r == AddDoctors(t, SAMPLE_DOCTORS)
  {
    if |t.doctors| != 0 then t else AddDoctors(t, SAMPLE_DOCTORS)
  }

  method SeedDoctorTable(db: Database)
    modifies db
    ensures db.Snapshot() == SeedDoctors(old(db.Snapshot()))
  {
    if |db.doctors| == 0 {
      ghost var t := db.Snapshot();
      ghost var ds := SAMPLE_DOCTORS;
      InsertDoctor(db, "Dr. Priya Sharma", "General Medicine");
      AddDoctorsStep(t, ds, 0);
      InsertDoctor(db, "Dr. Ravi Kumar", "Pediatrics");
      AddDoctorsStep(t, ds, 1);
      InsertDoctor(db, "Dr. Anita Patel", "Obstetrics & Gynecology");
      AddDoctorsStep(t, ds, 2);
      InsertDoctor(db, "Dr. Suresh Rao", "Emergency Medicine");
      AddDoctorsStep(t, ds, 3);
      assert ds[..4] == ds;
    }
  }

  /** One sample row of `patients`; `user_id` is left NULL. */
  datatype SamplePatient = SamplePatient(name: string, age: int, gender: string, village: string,
                                         symptoms: string, vitals: string, riskLevel: string)

  const SAMPLE_PATIENTS: seq<SamplePatient> := [
    SamplePatient("Ramesh Kumar", 45, "Male", "Khandwa", "Chest pain, shortness of breath",
                  "BP: 160/100, HR: 92, Temp: 98.6F", "high"),
    SamplePatient("Sunita Devi", 32, "Female", "Bharatpur", "Fever, cough for 3 days",
                  "BP: 110/70, HR: 80, Temp: 101.2F", "medium"),
    SamplePatient("Arjun Singh", 8, "Male", "Rajpur", "Stomach ache, vomiting",
                  "BP: 100/65, HR: 88, Temp: 100.4F", "medium"),
    SamplePatient("Meena Bai", 60, "Female", "Khandwa", "Joint pain, swelling in knees",
                  "BP: 130/85, HR: 74, Temp: 98.4F", "low"),
    SamplePatient("Vijay Yadav", 28, "Male", "Nandpur", "Minor cut on hand",
                  "BP: 118/76, HR: 70, Temp: 98.6F", "low")]

  /** The row a sample becomes under key id, stamped with the clock. */
  function PatientRow(s: SamplePatient, id: int, now: string): Patient {
    Patient.Patient(id, None, s.name, Some(s.age), Some(s.gender), Some(s.village), Some(s.symptoms),
                    Some(s.vitals), s.riskLevel, now)
  }

  /** `INSERT INTO patients (name, age, gender, village, symptoms, vitals, risk_level)`. */
  function AddPatient(t: Tables, s: SamplePatient, now: string): Tables {
    var id := t.patientSeq + 1;
    t.(patients := t.patients[id := PatientRow(s, id, now)], patientSeq := id)
  }

  /** The patients table after inserting ss above the counter n: the i-th
      gets key n + i + 1. */
  function PutPatients(m: map<int, Patient>, n: int, ss: seq<SamplePatient>, now: string): map<int, Patient>
    decreases |ss|
  {
    if ss == [] then m
    else
      var id := n + |ss|;
      PutPatients(m, n, ss[..|ss| - 1], now)[id := PatientRow(ss[|ss| - 1], id, now)]
  }

  /** The inserts write `patients` and its counter only. */
  function AddPatients(t: Tables, ss: seq<SamplePatient>, now: string): Tables {
    t.(patients := PutPatients(t.patients, t.patientSeq, ss, now), patientSeq := t.patientSeq + |ss|)
  }

  /** Inserting ss puts its i-th row under n + i + 1 and touches no other key. */
  lemma {:induction false} PutPatientsRows(m: map<int, Patient>, n: int, ss: seq<SamplePatient>, now: string)
    ensures var r := PutPatients(m, n, ss, now);
      && (forall k :: k in r <==> k in m || n < k <= n + |ss|)
      && (forall k :: k in m && !(n < k <= n + |ss|) ==> r[k] == m[k])
      && (forall i :: 0 <= i < |ss| ==> r[n + i + 1] == PatientRow(ss[i], n + i + 1, now))
    decreases |ss|
  {
    if ss != [] {
      var init := ss[..|ss| - 1];
      PutPatientsRows(m, n, init, now);
      assert forall i :: 0 <= i < |init| ==> init[i] == ss[i];
    }
  }

  lemma AddPatientsStep(t: Tables, ss: seq<SamplePatient>, now: string, i: int)
    requires 0 <= i < |ss|
    ensures AddPatients(t, ss[..i + 1], now) == AddPatient(AddPatients(t, ss[..i], now), ss[i], now)
  {
    assert ss[..i + 1][..i] == ss[..i];
  }

  method InsertPatient(db: Database, s: SamplePatient, now: string)
    modifies db
    ensures db.Snapshot() == AddPatient(old(db.Snapshot()), s, now)
  {
    var id := db.patientSeq + 1;
    db.patients := db.patients[id := PatientRow(s, id, now)];
    db.patientSeq := id;
  }

  /** The patient seed: the sample patients, only into an empty table. */
  function SeedPatients(t: Tables, now: string): (r: Tables)
    ensures |t.patients| != 0 ==> r == t
    ensures |t.patients| == 0 ==> r == AddPatients(t, SAMPLE_PATIENTS, now)
  {
    if |t.patients| != 0 then t else AddPatients(t, SAMPLE_PATIENTS, now)
  }

  method SeedPatientTable(db: Database, now: string)
    modifies db
    ensures db.Snapshot() == SeedPatients(old(db.Snapshot()), now)
  {
    if |db.patients| == 0 {
      ghost var t := db.Snapshot();
      ghost var ss := SAMPLE_PATIENTS;
      InsertPatient(db, SamplePatient("Ramesh Kumar", 45, "Male", "Khandwa", "Chest pain, shortness of breath",
                                      "BP: 160/100, HR: 92, Temp: 98.6F", "high"), now);
      AddPatientsStep(t, ss, now, 0);
      InsertPatient(db, SamplePatient("Sunita Devi", 32, "Female", "Bharatpur", "Fever, cough for 3 days",
                                      "BP: 110/70, HR: 80, Temp: 101.2F", "medium"), now);
      AddPatientsStep(t, ss, now, 1);
      InsertPatient(db, SamplePatient("Arjun Singh", 8, "Male", "Rajpur", "Stomach ache, vomiting",
                                      "BP: 100/65, HR: 88, Temp: 100.4F", "medium"), now);
      AddPatientsStep(t, ss, now, 2);
      InsertPatient(db, SamplePatient("Meena Bai", 60, "Female", "Khandwa", "Joint pain, swelling in knees",
                                      "BP: 130/85, HR: 74, Temp: 98.4F", "low"), now);
      AddPatientsStep(t, ss, now, 3);
      InsertPatient(db, SamplePatient("Vijay Yadav", 28, "Male", "Nandpur", "Minor cut on hand",
                                      "BP: 118/76, HR: 70, Temp: 98.6F", "low"), now);
      AddPatientsStep(t, ss, now, 4);
      assert ss[..5] == ss;
    }
  }

  /** Into an empty table the seed puts five staff-registered rows under the
      next five keys, every risk level one the CHECK constraint accepts. */
  lemma SeedPatientsRows(t: Tables, now: string)
    requires |t.patients| == 0
    ensures var r := SeedPatients(t, now); var n := t.patientSeq;
      && r == t.(patients := r.patients, patientSeq := n + 5)
      && (forall k :: k in r.patients <==> n < k <= n + 5)
      && (forall i :: 0 <= i < 5 ==> r.patients[n + i + 1] == PatientRow(SAMPLE_PATIENTS[i], n + i + 1, now))
      && (forall k :: k in r.patients ==> r.patients[k].id == k && r.patients[k].userId.None?
                                          && RiskLevelOk(r.patients[k].riskLevel))
  {
    PutPatientsRows(t.patients, t.patientSeq, SAMPLE_PATIENTS, now);
    var r := SeedPatients(t, now);
    var n := t.patientSeq;
    forall k | k in r.patients
      ensures r.patients[k].id == k && r.patients[k].userId.None? && RiskLevelOk(r.patients[k].riskLevel)
    {
      var i := k - n - 1;
      assert r.patients[n + i + 1] == PatientRow(SAMPLE_PATIENTS[i], n + i + 1, now);
    }
  }

  // ---------------------------------------------------------------------------
  // Baseline vitals

  /** `vitalsBases[risk_level] ?? vitalsBases['low']`: heart rate, SpO2 and
      glucose of a new baseline; an unknown level falls back to low. */
  function BaseFor(riskLevel: string): (int, int, int) {
    if riskLevel == "high" then (128, 91, 195)
    else if riskLevel == "medium" then (108, 93, 155)
    else (78, 98, 92)
  }

  /** The high and medium bases sit in the monitor's warning band on every
      metric, the low one (and the fallback) in its normal band. */
  lemma BaseForBands(riskLevel: string)
    ensures var b := BaseFor(riskLevel);
      var band := if riskLevel == "high" || riskLevel == "medium" then VitalsUtils.Warning else VitalsUtils.Normal;
      && VitalsUtils.HeartRateRisk(b.0) == band
      && VitalsUtils.SpO2Risk(b.1) == band
      && VitalsUtils.GlucoseRisk(b.2) == band
      && VitalsUtils.OverallRisk(b.0, b.1, b.2) == band
  {
  }

  /** Some `patient_vitals` row belongs to the patient. */
  predicate HasBaseline(t: Tables, patientId: int) {
    exists k :: k in t.baselines && t.baselines[k].patientId == patientId
  }

  /** `INSERT OR IGNORE INTO patient_vitals`: the UNIQUE `patient_id` makes
      the engine drop the row for a patient who already has one, but the
      AUTOINCREMENT id it drew for that row is spent all the same, so the
      counter advances on every pass. */
  function AddBaseline(t: Tables, p: Patient): (r: Tables)
    ensures r == t.(baselines := r.baselines, baselineSeq := t.baselineSeq + 1)
  {
    var id := t.baselineSeq + 1;
    if HasBaseline(t, p.id) then t.(baselineSeq := id)
    else
      var b := BaseFor(p.riskLevel);
      t.(baselines := t.baselines[id := Baseline(id, p.id, b.0, b.1, b.2)], baselineSeq := id)
  }

  /** The loop over the selected patients, in order. */
  function SeedBaselines(t: Tables, ps: seq<Patient>): Tables
    decreases |ps|
  {
    if ps == [] then t else AddBaseline(SeedBaselines(t, ps[..|ps| - 1]), ps[|ps| - 1])
  }

  function AnyRow(p: Patient): bool {
    true
  }

  /** `SELECT id, risk_level FROM patients`, in rowid order. */
  function PatientScan(t: Tables): seq<Patient> {
    RowsAt(t.patients, ScanIds(t.patients, t.patientSeq, AnyRow))
  }

  /** The scan returns every patient row, once, and nothing else. */
  lemma PatientScanRows(t: Tables)
    requires WellFormed(t)
    ensures forall k :: k in t.patients ==> t.patients[k] in PatientScan(t)
    ensures forall p :: p in PatientScan(t) ==> p.id in t.patients && t.patients[p.id] == p
    ensures |PatientScan(t)| == |t.patients|
  {
    ScanRows(t.patients, t.patientSeq, AnyRow);
    assert SelectedKeys(t.patients, AnyRow) == t.patients.Keys;
  }

  /** One insert-or-ignore keeps the store well formed with one baseline per
      patient, keeps every existing row, and leaves the patient covered; a
      new row carries the base of the patient's risk level. */
  lemma AddBaselineFacts(t: Tables, p: Patient)
    requires WellFormed(t) && OneBaselineEach(t)
    ensures var r := AddBaseline(t, p);
      && r == t.(baselines := r.baselines, baselineSeq := r.baselineSeq)
      && r.baselineSeq == t.baselineSeq + 1
      && WellFormed(r) && OneBaselineEach(r)
      && HasBaseline(r, p.id)
      && (forall k :: k in t.baselines ==> k in r.baselines && r.baselines[k] == t.baselines[k])
      && (forall k :: k in r.baselines && k !in t.baselines ==>
            var b := BaseFor(p.riskLevel);
            r.baselines[k] == Baseline(k, p.id, b.0, b.1, b.2))
  {
    var r := AddBaseline(t, p);
    if !HasBaseline(t, p.id) {
      var id := t.baselineSeq + 1;
      assert id in r.baselines && r.baselines[id].patientId == p.id;
    }
  }

  /** The row is the base of some listed patient's risk level, under that patient. */
  ghost predicate SeededFor(b: Baseline, ps: seq<Patient>) {
    exists i :: 0 <= i < |ps| && b.patientId == ps[i].id && (b.heartRate, b.spo2, b.glucose) == BaseFor(ps[i].riskLevel)
  }

  /** What the baseline loop leaves: only `patient_vitals` and its counter
      change, the counter by one per listed patient, every old row stays,
      the store stays well formed with one row per patient, every listed
      patient has a row, and every new row carries the base of some listed
      patient's risk level. */
  lemma {:induction false} SeedBaselinesFacts(t: Tables, ps: seq<Patient>)
    requires WellFormed(t) && OneBaselineEach(t)
    ensures var r := SeedBaselines(t, ps);
      && r == t.(baselines := r.baselines, baselineSeq := r.baselineSeq)
      && r.baselineSeq == t.baselineSeq + |ps|
      && WellFormed(r) && OneBaselineEach(r)
      && (forall k :: k in t.baselines ==> k in r.baselines && r.baselines[k] == t.baselines[k])
      && (forall i :: 0 <= i < |ps| ==> HasBaseline(r, ps[i].id))
      && (forall k :: k in r.baselines && k !in t.baselines ==> SeededFor(r.baselines[k], ps))
    decreases |ps|
  {
    if ps != [] {
      var init := ps[..|ps| - 1];
      var last := ps[|ps| - 1];
      var mid := SeedBaselines(t, init);
      SeedBaselinesFacts(t, init);
      AddBaselineFacts(mid, last);
      var r := AddBaseline(mid, last);
      forall i | 0 <= i < |ps| ensures HasBaseline(r, ps[i].id) {
        if i < |ps| - 1 {
          assert init[i] == ps[i];
          var k :| k in mid.baselines && mid.baselines[k].patientId == ps[i].id;
          assert r.baselines[k].patientId == ps[i].id;
        }
      }
      forall k | k in r.baselines && k !in t.baselines ensures SeededFor(r.baselines[k], ps) {
        var b := r.baselines[k];
        if k in mid.baselines {
          var i :| 0 <= i < |init| && b.patientId == init[i].id
            && (b.heartRate, b.spo2, b.glucose) == BaseFor(init[i].riskLevel);
          assert ps[i] == init[i];
        } else {
          assert ps[|ps| - 1] == last;
        }
      }
    }
  }

  /** The loop writes `patient_vitals` and its counter only. */
  lemma {:induction false} SeedBaselinesFrame(t: Tables, ps: seq<Patient>)
    ensures var r := SeedBaselines(t, ps); r == t.(baselines := r.baselines, baselineSeq := r.baselineSeq)
    decreases |ps|
  {
    if ps != [] {
      SeedBaselinesFrame(t, ps[..|ps| - 1]);
    }
  }

  /** When every listed patient already has a row the loop inserts nothing;
      only the counter moves, by one per listed patient. */
  lemma {:induction false} SeedBaselinesIdle(t: Tables, ps: seq<Patient>)
    requires forall i :: 0 <= i < |ps| ==> HasBaseline(t, ps[i].id)
    ensures SeedBaselines(t, ps) == t.(baselineSeq := t.baselineSeq + |ps|)
    decreases |ps|
  {
    if ps != [] {
      var init := ps[..|ps| - 1];
      SeedBaselinesIdle(t, init);
      var mid := SeedBaselines(t, init);
      assert mid.baselines == t.baselines;
      assert HasBaseline(mid, ps[|ps| - 1].id);
    }
  }

  /** One pass of the baseline loop: the engine draws the next id, keeps
      the row unless the UNIQUE `patient_id` rejects it, and spends the id
      either way. */
  method EnsureBaseline(db: Database, p: Patient)
    modifies db
    ensures db.Snapshot() == AddBaseline(old(db.Snapshot()), p)
  {
    var id := db.baselineSeq + 1;
    if !HasBaseline(db.Snapshot(), p.id) {
      var b := BaseFor(p.riskLevel);
      db.baselines := db.baselines[id := Baseline(id, p.id, b.0, b.1, b.2)];
    }
    db.baselineSeq := id;
  }

  lemma SeedBaselinesStep(t: Tables, ps: seq<Patient>, i: int)
    requires 0 <= i < |ps|
    ensures SeedBaselines(t, ps[..i + 1]) == AddBaseline(SeedBaselines(t, ps[..i]), ps[i])
  {
    assert ps[..i + 1][..i] == ps[..i];
  }

  /** The baseline loop over the scanned patients. */
  method SeedBaselineTable(db: Database)
    modifies db
    ensures db.Snapshot() == SeedBaselines(old(db.Snapshot()), PatientScan(old(db.Snapshot())))
  {
    var ps := RowsAt(db.patients, ScanIds(db.patients, db.patientSeq, AnyRow));
    ghost var t := db.Snapshot();
    for i := 0 to |ps|
      invariant db.Snapshot() == SeedBaselines(t, ps[..i])
    {
      EnsureBaseline(db, ps[i]);
      SeedBaselinesStep(t, ps, i);
    }
    assert ps[..|ps|] == ps;
  }

  // ---------------------------------------------------------------------------
  // Default accounts and the formulary

  const ADMIN_NAME := "Super Admin"
  const ADMIN_EMAIL := "admin@ruralcare.com"
  const PHARMACY_NAME := "Village Pharmacy"
  const PHARMACY_EMAIL := "pharmacy@ruralcare.com"

  /** `INSERT INTO users (name, email, password, role)`. */
  function AddUser(t: Tables, name: string, email: string, password: string, role: Role, now: string): Tables {
    var id := t.userSeq + 1;
    t.(users := t.users[id := User(id, name, email, password, role, now)], userSeq := id)
  }

  method InsertUser(db: Database, name: string, email: string, password: string, role: Role, now: string)
    modifies db
    ensures db.Snapshot() == AddUser(old(db.Snapshot()), name, email, password, role, now)
  {
    var id := db.userSeq + 1;
    db.users := db.users[id := User(id, name, email, password, role, now)];
    db.userSeq := id;
  }

  /** The admin seed: into an empty `users` table, one admin account holding
      the hash of the default password; otherwise nothing. */
  function SeedAdmin(t: Tables, adminHash: string, now: string): (r: Tables)
    ensures |t.users| != 0 ==> r == t
    ensures |t.users| == 0 ==>
      && r == t.(users := r.users, userSeq := t.userSeq + 1)
      && r.users.Keys == {t.userSeq + 1}
      && r.users[t.userSeq + 1] == User(t.userSeq + 1, ADMIN_NAME, ADMIN_EMAIL, adminHash, Admin, now)
  {
    if |t.users| != 0 then t else AddUser(t, ADMIN_NAME, ADMIN_EMAIL, adminHash, Admin, now)
  }

  method SeedAdminUser(db: Database, adminHash: string, now: string)
    modifies db
    ensures db.Snapshot() == SeedAdmin(old(db.Snapshot()), adminHash, now)
  {
    if |db.users| == 0 {
      InsertUser(db, ADMIN_NAME, ADMIN_EMAIL, adminHash, Admin, now);
    }
  }

  /** The default formulary, as (id, name, category, strength, price, stock). */
  const SAMPLE_MEDICINES: seq<Medicine> := [
    Medicine("med_amox", "Amoxicillin", "Antibiotic", "500mg", 12.50, 100),
    Medicine("med_para", "Paracetamol", "Analgesic", "500mg", 5.00, 500),
    Medicine("med_ibu", "Ibuprofen", "NSAID", "400mg", 8.50, 200),
    Medicine("med_met", "Metformin", "Antidiabetic", "500mg", 15.00, 150),
    Medicine("med_azith", "Azithromycin", "Antibiotic", "250mg", 25.00, 50),
    Medicine("med_amlod", "Amlodipine", "Antihypertensive", "5mg", 18.00, 120),
    Medicine("med_cet", "Cetirizine", "Antihistamine", "10mg", 6.50, 300),
    Medicine("med_pant", "Pantoprazole", "Antacid", "40mg", 14.00, 80)]

  /** `INSERT INTO medicines (id, ...)` under the row's own TEXT key. */
  function AddMedicine(t: Tables, m: Medicine): Tables {
    t.(medicines := t.medicines[m.id := m])
  }

  /** The formulary table after inserting ms in order. */
  function PutMedicines(m: map<string, Medicine>, ms: seq<Medicine>): map<string, Medicine>
    decreases |ms|
  {
    if ms == [] then m else PutMedicines(m, ms[..|ms| - 1])[ms[|ms| - 1].id := ms[|ms| - 1]]
  }

  /** The inserts write `medicines` only. */
  function AddMedicines(t: Tables, ms: seq<Medicine>): Tables {
    t.(medicines := PutMedicines(t.medicines, ms))
  }

  /** Every inserted row sits under its own id, and the last one inserted is there. */
  lemma {:induction false} PutMedicinesKeyed(m: map<string, Medicine>, ms: seq<Medicine>)
    requires forall k :: k in m ==> m[k].id == k
    ensures var r := PutMedicines(m, ms);
      && (forall k :: k in r ==> r[k].id == k)
      && (ms != [] ==> ms[|ms| - 1].id in r)
    decreases |ms|
  {
    if ms != [] {
      PutMedicinesKeyed(m, ms[..|ms| - 1]);
    }
  }

  /** The ids of ms, in order. */
  function Ids(ms: seq<Medicine>): (r: seq<string>)
    ensures |r| == |ms| && forall i :: 0 <= i < |ms| ==> r[i] == ms[i].id
  {
    seq(|ms|, i requires 0 <= i < |ms| => ms[i].id)
  }

  /** Inserting ms adds exactly its ids to the keys. */
  lemma {:induction false} PutMedicinesKeys(m: map<string, Medicine>, ms: seq<Medicine>)
    ensures forall k :: k in PutMedicines(m, ms) <==> k in m || k in Ids(ms)
    decreases |ms|
  {
    if ms != [] {
      PutMedicinesKeys(m, ms[..|ms| - 1]);
      assert Ids(ms) == Ids(ms[..|ms| - 1]) + [ms[|ms| - 1].id];
    }
  }

  /** A key that none of ms carries keeps its row. */
  lemma {:induction false} PutMedicinesOthers(m: map<string, Medicine>, ms: seq<Medicine>)
    ensures forall k :: k in m && k !in Ids(ms) ==> k in PutMedicines(m, ms) && PutMedicines(m, ms)[k] == m[k]
    decreases |ms|
  {
    if ms != [] {
      PutMedicinesOthers(m, ms[..|ms| - 1]);
      assert Ids(ms) == Ids(ms[..|ms| - 1]) + [ms[|ms| - 1].id];
    }
  }

  /** With distinct ids, each inserted row sits under its own id. */
  lemma {:induction false} PutMedicinesValues(m: map<string, Medicine>, ms: seq<Medicine>)
    requires forall i, j :: 0 <= i < j < |ms| ==> ms[i].id != ms[j].id
    ensures forall i :: 0 <= i < |ms| ==> ms[i].id in PutMedicines(m, ms) && PutMedicines(m, ms)[ms[i].id] == ms[i]
    decreases |ms|
  {
    if ms != [] {
      var init := ms[..|ms| - 1];
      PutMedicinesValues(m, init);
      forall i | 0 <= i < |init| ensures init[i] == ms[i] && init[i].id != ms[|ms| - 1].id { }
    }
  }

  method InsertMedicine(db: Database, m: Medicine)
    modifies db
    ensures db.Snapshot() == AddMedicine(old(db.Snapshot()), m)
  {
    db.medicines := db.medicines[m.id := m];
  }

  /** The medicine seed: the default formulary, only into an empty table. */
  function SeedMedicines(t: Tables): (r: Tables)
    ensures |t.medicines| != 0 ==> r == t
    ensures |t.medicines| == 0 ==> r == AddMedicines(t, SAMPLE_MEDICINES)
  {
    if |t.medicines| != 0 then t else AddMedicines(t, SAMPLE_MEDICINES)
  }

  /** The default ids are pairwise distinct. */
  lemma SampleMedicineIdsDistinct()
    ensures forall i, j :: 0 <= i < j < |SAMPLE_MEDICINES| ==> SAMPLE_MEDICINES[i].id != SAMPLE_MEDICINES[j].id
  {
    var ids := seq(|SAMPLE_MEDICINES|, i requires 0 <= i < |SAMPLE_MEDICINES| => SAMPLE_MEDICINES[i].id);
    assert ids == ["med_amox", "med_para", "med_ibu", "med_met", "med_azith", "med_amlod", "med_cet", "med_pant"];
    forall i, j | 0 <= i < j < |SAMPLE_MEDICINES| ensures SAMPLE_MEDICINES[i].id != SAMPLE_MEDICINES[j].id {
      assert ids[i] != ids[j];
    }
  }

  lemma SampleStocks()
    ensures forall i :: 0 <= i < |SAMPLE_MEDICINES| ==> SAMPLE_MEDICINES[i].stock >= 0
  {
  }

  /** Into an empty table the seed puts exactly the eight default medicines,
      each under its own id with a non-negative stock. */
  lemma SeedMedicinesRows(t: Tables)
    requires |t.medicines| == 0
    ensures var r := SeedMedicines(t);
      && r == t.(medicines := r.medicines)
      && (forall k :: k in r.medicines <==> k in Ids(SAMPLE_MEDICINES))
      && (forall i :: 0 <= i < |SAMPLE_MEDICINES| ==> r.medicines[SAMPLE_MEDICINES[i].id] == SAMPLE_MEDICINES[i])
      && (forall k :: k in r.medicines ==> r.medicines[k].id == k && r.medicines[k].stock >= 0)
  {
    assert t.medicines == map[];
    var ms := SAMPLE_MEDICINES;
    SampleMedicineIdsDistinct();
    SampleStocks();
    PutMedicinesKeys(t.medicines, ms);
    PutMedicinesValues(t.medicines, ms);
    PutMedicinesKeyed(t.medicines, ms);
    var rows := PutMedicines(t.medicines, ms);
    forall k | k in rows ensures rows[k].stock >= 0 {
      var i :| 0 <= i < |ms| && Ids(ms)[i] == k;
      assert rows[ms[i].id] == ms[i];
    }
  }

  lemma AddMedicinesStep(t: Tables, ms: seq<Medicine>, i: int)
    requires 0 <= i < |ms|
    ensures AddMedicines(t, ms[..i + 1]) == AddMedicine(AddMedicines(t, ms[..i]), ms[i])
  {
    assert ms[..i + 1][..i] == ms[..i];
  }

  method SeedMedicineTable(db: Database)
    modifies db
    ensures db.Snapshot() == SeedMedicines(old(db.Snapshot()))
  {
    if |db.medicines| == 0 {
      ghost var t := db.Snapshot();
      ghost var ms := SAMPLE_MEDICINES;
      InsertMedicine(db, Medicine("med_amox", "Amoxicillin", "Antibiotic", "500mg", 12.50, 100));
      AddMedicinesStep(t, ms, 0);
      InsertMedicine(db, Medicine("med_para", "Paracetamol", "Analgesic", "500mg", 5.00, 500));
      AddMedicinesStep(t, ms, 1);
      InsertMedicine(db, Medicine("med_ibu", "Ibuprofen", "NSAID", "400mg", 8.50, 200));
      AddMedicinesStep(t, ms, 2);
      InsertMedicine(db, Medicine("med_met", "Metformin", "Antidiabetic", "500mg", 15.00, 150));
      AddMedicinesStep(t, ms, 3);
      InsertMedicine(db, Medicine("med_azith", "Azithromycin", "Antibiotic", "250mg", 25.00, 50));
      AddMedicinesStep(t, ms, 4);
      InsertMedicine(db, Medicine("med_amlod", "Amlodipine", "Antihypertensive", "5mg", 18.00, 120));
      AddMedicinesStep(t, ms, 5);
      InsertMedicine(db, Medicine("med_cet", "Cetirizine", "Antihistamine", "10mg", 6.50, 300));
      AddMedicinesStep(t, ms, 6);
      InsertMedicine(db, Medicine("med_pant", "Pantoprazole", "Antacid", "40mg", 14.00, 80));
      AddMedicinesStep(t, ms, 7);
      assert ms[..8] == ms;
    }
  }

  /** Some account has the pharmacy role. */
  predicate HasPharmacyUser(t: Tables) {
    exists k :: k in t.users && t.users[k].role == Pharmacy
  }

  /** The store after start-up, and whether loading finished. It does not
      when the pharmacy insert breaks the UNIQUE email constraint: the error
      escapes, and the rows the earlier steps committed stay. */
  datatype Boot = Boot(after: Tables, started: bool)

  /** The pharmacy seed: runs only while no account has the pharmacy role,
      and fails when another account already holds the pharmacy email. */
  function SeedPharmacy(t: Tables, pharmacyHash: string, now: string): (r: Boot)
    ensures HasPharmacyUser(t) ==> r == Boot(t, true)
    ensures !r.started <==> !HasPharmacyUser(t) && EmailTaken(t, PHARMACY_EMAIL)
    ensures !r.started ==> r.after == t
    ensures r.started ==> HasPharmacyUser(r.after)
    ensures r.started && !HasPharmacyUser(t) ==>
      r.after == AddUser(t, PHARMACY_NAME, PHARMACY_EMAIL, pharmacyHash, Pharmacy, now)
  {
    if HasPharmacyUser(t) then Boot(t, true)
    else if EmailTaken(t, PHARMACY_EMAIL) then Boot(t, false)
    else
      var r := AddUser(t, PHARMACY_NAME, PHARMACY_EMAIL, pharmacyHash, Pharmacy, now);
      assert r.users[r.userSeq].role == Pharmacy;
      Boot(r, true)
  }

  method SeedPharmacyUser(db: Database, pharmacyHash: string, now: string) returns (started: bool)
    modifies db
    ensures Boot(db.Snapshot(), started) == SeedPharmacy(old(db.Snapshot()), pharmacyHash, now)
  {
    if HasPharmacyUser(db.Snapshot()) {
      return true;
    }
    if EmailTaken(db.Snapshot(), PHARMACY_EMAIL) {
      return false;
    }
    InsertUser(db, PHARMACY_NAME, PHARMACY_EMAIL, pharmacyHash, Pharmacy, now);
    started := true;
  }

  // ---------------------------------------------------------------------------
  // The whole start-up

  /** The migrations, the doctor and patient seeds and the baseline loop. */
  function ThroughBaselines(t: Tables, now: string): Tables {
    var p := SeedPatients(SeedDoctors(Migrated(t)), now);
    SeedBaselines(p, PatientScan(p))
  }

  /** Every step before the pharmacy seed, in file order. */
  function Seeded(t: Tables, adminHash: string, now: string): Tables {
    SeedMedicines(SeedAdmin(ThroughBaselines(t, now), adminHash, now))
  }

  /** Loading the database module on an existing store. */
  function StartSpec(t: Tables, adminHash: string, pharmacyHash: string, now: string): Boot {
    SeedPharmacy(Seeded(t, adminHash, now), pharmacyHash, now)
  }

  method Start(db: Database, adminHash: string, pharmacyHash: string, now: string) returns (started: bool)
    modifies db
    ensures Boot(db.Snapshot(), started) == StartSpec(old(db.Snapshot()), adminHash, pharmacyHash, now)
  {
    ApplyMigration(db, AppointmentsAddUserId);
    ApplyMigration(db, PatientsAddUserId);
    ApplyMigration(db, AppointmentsAddAvailabilityId);
    ApplyMigration(db, UsersAddPharmacyRole);
    SeedDoctorTable(db);
    SeedPatientTable(db, now);
    SeedBaselineTable(db);
    SeedAdminUser(db, adminHash, now);
    SeedMedicineTable(db);
    started := SeedPharmacyUser(db, pharmacyHash, now);
  }

  /** The constraints every step keeps: keys and counters, one baseline per
      patient, one account per email. */
  ghost predicate StoreInvariant(t: Tables) {
    WellFormed(t) && OneBaselineEach(t) && UniqueEmails(t)
  }

  lemma MigratedKeeps(t: Tables)
    requires StoreInvariant(t)
    ensures StoreInvariant(Migrated(t)) && Migrated(t).users == t.users
  {
    MigratedKeepsWellFormed(t);
    MigratedKeepsUsers(t);
  }

  /** Replacing the doctors table by rows keyed within 1..n keeps the invariant. */
  lemma WithDoctors(t: Tables, rows: map<int, Doctor>, n: int)
    requires StoreInvariant(t) && 0 <= n
    requires forall k :: k in rows ==> 1 <= k <= n && rows[k].id == k
    ensures StoreInvariant(t.(doctors := rows, doctorSeq := n))
  {
  }

  lemma SeedDoctorsKeeps(t: Tables)
    requires StoreInvariant(t)
    ensures var r := SeedDoctors(t);
      StoreInvariant(r) && r == t.(doctors := r.doctors, doctorSeq := r.doctorSeq) && |r.doctors| != 0
  {
    if |t.doctors| == 0 {
      var n := t.doctorSeq;
      var rows := PutDoctors(t.doctors, n, SAMPLE_DOCTORS);
      PutDoctorsKeyed(t.doctors, n, SAMPLE_DOCTORS);
      WithDoctors(t, rows, n + |SAMPLE_DOCTORS|);
      assert n + 1 in rows;
    }
  }

  lemma SeedPatientsKeeps(t: Tables, now: string)
    requires StoreInvariant(t)
    ensures var r := SeedPatients(t, now);
      StoreInvariant(r) && r == t.(patients := r.patients, patientSeq := r.patientSeq) && |r.patients| != 0
  {
    if |t.patients| == 0 {
      SeedPatientsRows(t, now);
      var r := SeedPatients(t, now);
      assert t.patientSeq + 1 in r.patients;
    }
  }

  lemma SeedAdminKeeps(t: Tables, adminHash: string, now: string)
    requires StoreInvariant(t)
    ensures var r := SeedAdmin(t, adminHash, now);
      StoreInvariant(r) && r == t.(users := r.users, userSeq := r.userSeq) && |r.users| != 0
  {
    var r := SeedAdmin(t, adminHash, now);
    if |t.users| == 0 {
      assert t.userSeq + 1 in r.users;
    }
  }

  /** Replacing the formulary by rows keyed by their ids keeps the invariant. */
  lemma WithMedicines(t: Tables, rows: map<string, Medicine>)
    requires StoreInvariant(t)
    requires forall k :: k in rows ==> rows[k].id == k
    ensures StoreInvariant(t.(medicines := rows))
  {
  }

  lemma SeedMedicinesKeeps(t: Tables)
    requires StoreInvariant(t)
    ensures var r := SeedMedicines(t);
      StoreInvariant(r) && r == t.(medicines := r.medicines) && |r.medicines| != 0
  {
    if |t.medicines| == 0 {
      var rows := PutMedicines(t.medicines, SAMPLE_MEDICINES);
      PutMedicinesKeyed(t.medicines, SAMPLE_MEDICINES);
      WithMedicines(t, rows);
      assert SAMPLE_MEDICINES[|SAMPLE_MEDICINES| - 1].id in rows;
    }
  }

  lemma SeedPharmacyKeeps(t: Tables, pharmacyHash: string, now: string)
    requires StoreInvariant(t)
    ensures var r := SeedPharmacy(t, pharmacyHash, now).after;
      StoreInvariant(r) && r == t.(users := r.users, userSeq := r.userSeq)
      && forall k :: k in t.users ==> k in r.users && r.users[k] == t.users[k]
  {
    var r := SeedPharmacy(t, pharmacyHash, now).after;
    if !HasPharmacyUser(t) && !EmailTaken(t, PHARMACY_EMAIL) {
      assert forall a :: a in t.users ==> t.users[a].email != PHARMACY_EMAIL;
    }
  }

  /** The first steps keep the invariant and the accounts, record every
      migration, fill the doctors and patients, and give every patient a
      baseline. */
  lemma ThroughBaselinesFacts(t: Tables, now: string)
    requires StoreInvariant(t)
    ensures var b := ThroughBaselines(t, now);
      && StoreInvariant(b) && b.users == t.users
      && (forall m :: Marker(m) in b.migrations)
      && |b.doctors| != 0 && |b.patients| != 0
      && (forall k :: k in b.patients ==> HasBaseline(b, k))
  {
    var m := Migrated(t);
    MigratedKeeps(t);
    var d := SeedDoctors(m);
    SeedDoctorsKeeps(m);
    var p := SeedPatients(d, now);
    SeedPatientsKeeps(d, now);
    var ps := PatientScan(p);
    PatientScanRows(p);
    var b := SeedBaselines(p, ps);
    SeedBaselinesFacts(p, ps);
    forall k | k in b.patients ensures HasBaseline(b, k) {
      assert p.patients[k] in ps;
      var i :| 0 <= i < |ps| && ps[i] == p.patients[k];
      assert HasBaseline(b, ps[i].id);
    }
  }

  /** The first steps leave the accounts as they were. */
  lemma ThroughBaselinesUsers(t: Tables, now: string)
    ensures ThroughBaselines(t, now).users == t.users
  {
    MigratedKeepsUsers(t);
    var d := SeedDoctors(Migrated(t));
    var p := SeedPatients(d, now);
    SeedBaselinesFrame(p, PatientScan(p));
  }

  /** What the steps before the pharmacy seed leave, whatever the store held:
      the invariant, every migration marker, non-empty seeded tables and a
      baseline for every patient. */
  lemma SeededFacts(t: Tables, adminHash: string, now: string)
    requires StoreInvariant(t)
    ensures var s := Seeded(t, adminHash, now);
      && StoreInvariant(s)
      && (forall m :: Marker(m) in s.migrations)
      && |s.doctors| != 0 && |s.patients| != 0 && |s.users| != 0 && |s.medicines| != 0
      && (forall k :: k in s.patients ==> HasBaseline(s, k))
  {
    var b := ThroughBaselines(t, now);
    ThroughBaselinesFacts(t, now);
    var a := SeedAdmin(b, adminHash, now);
    SeedAdminKeeps(b, adminHash, now);
    var s := SeedMedicines(a);
    SeedMedicinesKeeps(a);
    assert s.patients == b.patients && s.baselines == b.baselines;
    assert forall k :: k in s.patients ==> HasBaseline(b, k);
  }

  lemma AdminThenMedicinesUsers(b: Tables, adminHash: string, now: string)
    ensures var s := SeedMedicines(SeedAdmin(b, adminHash, now));
      && (|b.users| != 0 ==> s.users == b.users)
      && (|b.users| == 0 ==> forall k :: k in s.users ==> s.users[k].role == Admin && s.users[k].email == ADMIN_EMAIL)
  {
  }

  /** The steps before the pharmacy seed leave the accounts untouched unless
      there were none; then the only account is the default admin. */
  lemma SeededUsers(t: Tables, adminHash: string, now: string)
    ensures var s := Seeded(t, adminHash, now);
      && (|t.users| != 0 ==> s.users == t.users)
      && (|t.users| == 0 ==> forall k :: k in s.users ==> s.users[k].role == Admin && s.users[k].email == ADMIN_EMAIL)
  {
    var b := ThroughBaselines(t, now);
    ThroughBaselinesUsers(t, now);
    AdminThenMedicinesUsers(b, adminHash, now);
  }

  /** The pharmacy seed keeps the invariant and everything the earlier steps
      settled, and finishes exactly when some account has the pharmacy role. */
  lemma SeedPharmacyOutcome(s: Tables, pharmacyHash: string, now: string)
    requires StoreInvariant(s)
    requires (forall m :: Marker(m) in s.migrations)
    requires |s.doctors| != 0 && |s.patients| != 0 && |s.users| != 0 && |s.medicines| != 0
    requires forall k :: k in s.patients ==> HasBaseline(s, k)
    ensures var r := SeedPharmacy(s, pharmacyHash, now); var a := r.after;
      && StoreInvariant(a)
      && (forall m :: Marker(m) in a.migrations)
      && |a.doctors| != 0 && |a.patients| != 0 && |a.users| != 0 && |a.medicines| != 0
      && (forall k :: k in a.patients ==> HasBaseline(a, k))
      && (r.started <==> HasPharmacyUser(a))
      && (!r.started ==> EmailTaken(a, PHARMACY_EMAIL))
  {
    SeedPharmacyKeeps(s, pharmacyHash, now);
    var a := SeedPharmacy(s, pharmacyHash, now).after;
    assert a.patients == s.patients && a.baselines == s.baselines;
    assert forall k :: k in a.patients ==> HasBaseline(s, k);
    if a != s {
      assert a.userSeq in a.users;
    }
  }

  /** What every start-up leaves, whether or not it finished: the invariant,
      every migration recorded, doctors, patients, accounts and medicines
      present, a baseline for every patient, and it finished exactly when
      some account has the pharmacy role. */
  lemma StartOutcome(t: Tables, adminHash: string, pharmacyHash: string, now: string)
    requires StoreInvariant(t)
    ensures var r := StartSpec(t, adminHash, pharmacyHash, now); var s := r.after;
      && StoreInvariant(s)
      && (forall m :: Marker(m) in s.migrations)
      && |s.doctors| != 0 && |s.patients| != 0 && |s.users| != 0 && |s.medicines| != 0
      && (forall k :: k in s.patients ==> HasBaseline(s, k))
      && (r.started <==> HasPharmacyUser(s))
      && (!r.started ==> EmailTaken(s, PHARMACY_EMAIL))
  {
    SeededFacts(t, adminHash, now);
    SeedPharmacyOutcome(Seeded(t, adminHash, now), pharmacyHash, now);
  }

  /** Start-up stops short exactly when no account has the pharmacy role and
      some account already holds the pharmacy email. */
  lemma StartFailsIff(t: Tables, adminHash: string, pharmacyHash: string, now: string)
    requires StoreInvariant(t)
    ensures !StartSpec(t, adminHash, pharmacyHash, now).started <==>
      !HasPharmacyUser(t) && EmailTaken(t, PHARMACY_EMAIL)
  {
    SeededUsers(t, adminHash, now);
    var s := Seeded(t, adminHash, now);
    if |t.users| == 0 {
      assert !HasPharmacyUser(s) && !EmailTaken(s, PHARMACY_EMAIL);
    } else {
      assert HasPharmacyUser(s) == HasPharmacyUser(t) && EmailTaken(s, PHARMACY_EMAIL) == EmailTaken(t, PHARMACY_EMAIL);
    }
  }

  /** Every step before the pharmacy seed finds its work done on a store a
      start-up left; only the baseline loop's spent ids move a counter. */
  lemma SeededAgain(s: Tables, adminHash: string, now: string)
    requires StoreInvariant(s)
    requires forall m :: Marker(m) in s.migrations
    requires |s.doctors| != 0 && |s.patients| != 0 && |s.users| != 0 && |s.medicines| != 0
    requires forall k :: k in s.patients ==> HasBaseline(s, k)
    ensures Seeded(s, adminHash, now) == s.(baselineSeq := s.baselineSeq + |s.patients|)
  {
    assert Migrated(s) == s;
    assert SeedDoctors(s) == s;
    assert SeedPatients(s, now) == s;
    var ps := PatientScan(s);
    PatientScanRows(s);
    forall i | 0 <= i < |ps| ensures HasBaseline(s, ps[i].id) {
      assert ps[i] in ps;
    }
    SeedBaselinesIdle(s, ps);
    assert ThroughBaselines(s, now) == s.(baselineSeq := s.baselineSeq + |s.patients|);
  }

  /** The pharmacy seed on a store a start-up left ends as that start-up
      did and writes nothing: the role it looks for is there exactly when
      the first run finished, and otherwise the email is still taken. */
  lemma SeedPharmacyAgain(s: Tables, started: bool, pharmacyHash: string, now: string)
    requires started <==> HasPharmacyUser(s)
    requires !started ==> EmailTaken(s, PHARMACY_EMAIL)
    ensures SeedPharmacy(s, pharmacyHash, now) == Boot(s, started)
  {
  }

  /** Start-up on a store an earlier start-up left, which finished or not. */
  lemma StartAgain(s: Tables, started: bool, adminHash: string, pharmacyHash: string, now: string)
    requires StoreInvariant(s)
    requires forall m :: Marker(m) in s.migrations
    requires |s.doctors| != 0 && |s.patients| != 0 && |s.users| != 0 && |s.medicines| != 0
    requires forall k :: k in s.patients ==> HasBaseline(s, k)
    requires started <==> HasPharmacyUser(s)
    requires !started ==> EmailTaken(s, PHARMACY_EMAIL)
    ensures StartSpec(s, adminHash, pharmacyHash, now) == Boot(s.(baselineSeq := s.baselineSeq + |s.patients|), started)
  {
    SeededAgain(s, adminHash, now);
    var s' := s.(baselineSeq := s.baselineSeq + |s.patients|);
    assert HasPharmacyUser(s') == HasPharmacyUser(s);
    assert EmailTaken(s', PHARMACY_EMAIL) == EmailTaken(s, PHARMACY_EMAIL);
    SeedPharmacyAgain(s', started, pharmacyHash, now);
  }

  /** Loading the module again, with any hashes and clock, ends the same way
      and writes no row: every step is gated on what the first run left.
      Only the `patient_vitals` counter moves, by one per patient, as each
      ignored insert spends an id. */
  lemma StartIdempotent(t: Tables, adminHash: string, pharmacyHash: string, now: string,
                        adminHash2: string, pharmacyHash2: string, now2: string)
    requires StoreInvariant(t)
    ensures var r := StartSpec(t, adminHash, pharmacyHash, now);
      StartSpec(r.after, adminHash2, pharmacyHash2, now2)
        == Boot(r.after.(baselineSeq := r.after.baselineSeq + |r.after.patients|), r.started)
  {
    var r := StartSpec(t, adminHash, pharmacyHash, now);
    StartOutcome(t, adminHash, pharmacyHash, now);
    StartAgain(r.after, r.started, adminHash2, pharmacyHash2, now2);
  }
}
