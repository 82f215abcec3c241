/** The simulated live vitals feed (`/api/vitals`): each request jitters the
    stored baseline of a patient by a bounded random amount and clamps the
    result to a physiological range. The random draw is a parameter: an
    integer delta within the jitter range of each metric. The handlers only
    read the store. */
module VitalsFeed {
  import opened Base
  import opened TextOrder
  import opened Query
  import opened Schema

  /** `Math.round(base + (Math.random() * range * 2 - range))` for an integer
      base: base plus a whole delta within [-range, range]. */
  function Jitter(base: int, range: int, delta: int): (r: int)
    requires -range <= delta <= range
    ensures base - range <= r <= base + range
  {
    base + delta
  }

  /** The draws one reading uses, each within its metric's jitter range. */
  type HeartRateDelta = d: int | -5 <= d <= 5
  type SpO2Delta = d: int | -2 <= d <= 2
  type GlucoseDelta = d: int | -10 <= d <= 10
  datatype Noise = Noise(heartRate: HeartRateDelta, spo2: SpO2Delta, glucose: GlucoseDelta)

  /** `Math.min(hi, Math.max(lo, x))`. */
  function Clamp(lo: int, hi: int, x: int): (r: int)
    requires lo <= hi
    ensures lo <= r <= hi
    ensures lo <= x <= hi ==> r == x
    ensures x < lo ==> r == lo
    ensures x > hi ==> r == hi
  {
    if x > hi then hi else if x < lo then lo else x
  }

  /** One reading of the feed. */
  datatype Reading = Reading(patientId: int, patientName: string, riskLevel: string,
                             heartRate: int, spo2: int, glucose: int, timestamp: string)

  /** `buildResponse(vitals, patient)`, where `patient` supplies the id, name
      and risk level. */
  function BuildResponse(vitals: Baseline, patientId: int, patientName: string, riskLevel: string,
                         noise: Noise, now: string): (r: Reading)
    ensures 30 <= r.heartRate <= 200 && 70 <= r.spo2 <= 100 && 40 <= r.glucose <= 400
    ensures r.patientId == patientId && r.patientName == patientName && r.riskLevel == riskLevel
    ensures r.timestamp == now
  {
    Reading(patientId, patientName, riskLevel,
            Clamp(30, 200, Jitter(vitals.heartRate, 5, noise.heartRate)),
            Clamp(70, 100, Jitter(vitals.spo2, 2, noise.spo2)),
            Clamp(40, 400, Jitter(vitals.glucose, 10, noise.glucose)),
            now)
  }

  /** Each metric stays within its jitter range of the baseline unless a
      clamp cut it off at a bound. */
  lemma BuildResponseNearBaseline(vitals: Baseline, patientId: int, patientName: string, riskLevel: string,
                                  noise: Noise, now: string)
    ensures var r := BuildResponse(vitals, patientId, patientName, riskLevel, noise, now);
      && (vitals.heartRate - 5 <= r.heartRate <= vitals.heartRate + 5 || r.heartRate == 30 || r.heartRate == 200)
      && (vitals.spo2 - 2 <= r.spo2 <= vitals.spo2 + 2 || r.spo2 == 70 || r.spo2 == 100)
      && (vitals.glucose - 10 <= r.glucose <= vitals.glucose + 10 || r.glucose == 40 || r.glucose == 400)
  {
  }

  /** A baseline comfortably inside the clamp ranges is reported as drawn:
      the clamps only ever cut off readings the jitter pushed outside. */
  lemma ClampIdleInsideRange(vitals: Baseline, patientId: int, patientName: string, riskLevel: string,
                             noise: Noise, now: string)
    requires 35 <= vitals.heartRate <= 195 && 72 <= vitals.spo2 <= 98 && 50 <= vitals.glucose <= 390
    ensures var r := BuildResponse(vitals, patientId, patientName, riskLevel, noise, now);
      && r.heartRate == vitals.heartRate + noise.heartRate
      && r.spo2 == vitals.spo2 + noise.spo2
      && r.glucose == vitals.glucose + noise.glucose
  {
  }

  // ---------------------------------------------------------------------------
  // GET /

  const FEED_FORBIDDEN := "Use /api/vitals/mine for patient vitals"

  /** The join on patients keeps a baseline whose patient exists. */
  predicate Joined(t: Tables, b: Baseline) {
    b.patientId in t.patients
  }

  function PatientNameOf(t: Tables, b: Baseline): string {
    if b.patientId in t.patients then t.patients[b.patientId].name else ""
  }

  function RiskOf(t: Tables, b: Baseline): string {
    if b.patientId in t.patients then t.patients[b.patientId].riskLevel else ""
  }

  function JoinedIds(t: Tables): set<int> {
    set k | k in t.baselines && Joined(t, t.baselines[k])
  }

  /** The joined baselines, by patient name. */
  function FeedRows(t: Tables): (rows: seq<Baseline>)
    requires WellFormed(t)
    ensures forall x :: x in rows ==> x.id in t.baselines && t.baselines[x.id] == x && Joined(t, x)
    ensures forall k :: k in t.baselines && Joined(t, t.baselines[k]) ==> t.baselines[k] in rows
    ensures |rows| == |JoinedIds(t)|
    ensures forall i, j :: 0 <= i < j < |rows| ==> StrLe(PatientNameOf(t, rows[i]), PatientNameOf(t, rows[j]))
  {
    var keep := (b: Baseline) => Joined(t, b);
    var key := (b: Baseline) => [PatientNameOf(t, b)];
    var rows := SelectSorted(t.baselines, t.baselineSeq, (b: Baseline) => b.id, keep, key, false);
    assert SelectedKeys(t.baselines, keep) == JoinedIds(t);
    forall i, j | 0 <= i < j < |rows| ensures StrLe(PatientNameOf(t, rows[i]), PatientNameOf(t, rows[j])) {
      assert Before(key(rows[i]), key(rows[j]), false);
      KeyLeSingle(PatientNameOf(t, rows[i]), PatientNameOf(t, rows[j]));
    }
    rows
  }

  /** The id `buildResponse` reads off a row of the query as written: the
      `patient_vitals` row's own id. */
  function RowId(b: Baseline): int {
    b.id
  }

  /** The patient id the feed is meant to report. */
  function PatientIdOf(b: Baseline): int {
    b.patientId
  }

  /** One reading per joined row, the i-th drawn with noise(i). */
  function Readings(t: Tables, rows: seq<Baseline>, idOf: Baseline -> int, noise: int -> Noise, now: string)
    : (r: seq<Reading>)
    ensures |r| == |rows|
    ensures forall i :: 0 <= i < |rows| ==>
      r[i] == BuildResponse(rows[i], idOf(rows[i]), PatientNameOf(t, rows[i]), RiskOf(t, rows[i]), noise(i), now)
  {
    seq(|rows|, i requires 0 <= i < |rows| =>
      BuildResponse(rows[i], idOf(rows[i]), PatientNameOf(t, rows[i]), RiskOf(t, rows[i]), noise(i), now))
  }

  /** GET / as written: `SELECT pv.*, p.name, p.risk_level` and then
      `buildResponse(r, r)`, so the reading's patient id is `r.id`, the id of
      the `patient_vitals` row. */
  function ListAsWritten(t: Tables, caller: AuthUser, noise: int -> Noise, now: string): (r: Response<seq<Reading>>)
    requires WellFormed(t)
    ensures r.Failure? <==> caller.role.Patient?
    ensures r.Failure? ==> r == Failure(403, FEED_FORBIDDEN)
    ensures r.Success? ==> r.body == Readings(t, FeedRows(t), RowId, noise, now)
  {
    if caller.role.Patient? then Failure(403, FEED_FORBIDDEN)
    else Success(200, Readings(t, FeedRows(t), RowId, noise, now))
  }

  /** A store where patient 7's baseline is `patient_vitals` row 6: patients
      6 and 7 registered after the last start-up, 6 was removed, and the next
      start-up gave 7's baseline the next row id. */
  lemma ListAsWrittenMislabels(noise: int -> Noise, now: string)
    ensures var t := EmptyTables.(
              patients := map[7 := Patient.Patient(7, Some(3), "Vijay Yadav", None, None, None, None, None, "low", "2025-03-01")],
              patientSeq := 7,
              baselines := map[6 := Baseline(6, 7, 78, 98, 92)], baselineSeq := 6);
      var r := ListAsWritten(t, AuthUser(1, "Super Admin", "admin@ruralcare.com", Role.Admin), noise, now);
      && r.Success? && |r.body| == 1
      && r.body[0].patientName == "Vijay Yadav"
      && r.body[0].patientId == 6
  {
    var t := EmptyTables.(
              patients := map[7 := Patient.Patient(7, Some(3), "Vijay Yadav", None, None, None, None, None, "low", "2025-03-01")],
              patientSeq := 7,
              baselines := map[6 := Baseline(6, 7, 78, 98, 92)], baselineSeq := 6);
    assert JoinedIds(t) == {6};
    var rows := FeedRows(t);
    assert rows[0] in rows;
    assert rows[0] == Baseline(6, 7, 78, 98, 92);
  }

  /** GET /, for every role but patient: one reading per baseline whose
      patient exists, by patient name, each labelled with that patient's id,
      name and risk level. */
  function List(t: Tables, caller: AuthUser, noise: int -> Noise, now: string): (r: Response<seq<Reading>>)
    requires WellFormed(t)
    ensures r.Failure? <==> caller.role.Patient?
    ensures r.Failure? ==> r == Failure(403, FEED_FORBIDDEN)
    ensures r.Success? ==> r.body == Readings(t, FeedRows(t), PatientIdOf, noise, now)
  {
    if caller.role.Patient? then Failure(403, FEED_FORBIDDEN)
    else Success(200, Readings(t, FeedRows(t), PatientIdOf, noise, now))
  }

  /** Each reading of the feed is labelled with the id, name and risk level
      of an existing patient and drawn from a baseline row of that patient. */
  lemma ListReadingsLabelled(t: Tables, caller: AuthUser, noise: int -> Noise, now: string)
    requires WellFormed(t) && !caller.role.Patient?
    ensures var body := List(t, caller, noise, now).body;
      forall i :: 0 <= i < |body| ==>
        && body[i].patientId in t.patients
        && body[i].patientName == t.patients[body[i].patientId].name
        && body[i].riskLevel == t.patients[body[i].patientId].riskLevel
        && exists k :: k in t.baselines && t.baselines[k].patientId == body[i].patientId &&
             body[i] == BuildResponse(t.baselines[k], body[i].patientId, body[i].patientName,
                                      body[i].riskLevel, noise(i), now)
  {
    var rows := FeedRows(t);
    var body := List(t, caller, noise, now).body;
    assert body == Readings(t, rows, PatientIdOf, noise, now);
    forall i | 0 <= i < |body|
      ensures body[i].patientId in t.patients
      ensures body[i].patientName == t.patients[body[i].patientId].name
      ensures body[i].riskLevel == t.patients[body[i].patientId].riskLevel
      ensures exists k :: k in t.baselines && t.baselines[k].patientId == body[i].patientId &&
                 body[i] == BuildResponse(t.baselines[k], body[i].patientId, body[i].patientName,
                                          body[i].riskLevel, noise(i), now)
    {
      var b := rows[i];
      assert b in rows;
      assert b.id in t.baselines && t.baselines[b.id] == b;
      assert body[i] == BuildResponse(b, b.patientId, PatientNameOf(t, b), RiskOf(t, b), noise(i), now);
    }
  }

  /** The feed holds one reading per baseline whose patient exists, in order
      of patient name. */
  lemma ListReadingsComplete(t: Tables, caller: AuthUser, noise: int -> Noise, now: string)
    requires WellFormed(t) && !caller.role.Patient?
    ensures var body := List(t, caller, noise, now).body;
      && |body| == |JoinedIds(t)|
      && (forall k :: k in t.baselines && t.baselines[k].patientId in t.patients ==>
            exists i :: 0 <= i < |body| && body[i].patientId == t.baselines[k].patientId)
      && (forall i, j :: 0 <= i < j < |body| ==> StrLe(body[i].patientName, body[j].patientName))
  {
    var rows := FeedRows(t);
    var body := List(t, caller, noise, now).body;
    assert body == Readings(t, rows, PatientIdOf, noise, now);
    forall k | k in t.baselines && t.baselines[k].patientId in t.patients
      ensures exists i :: 0 <= i < |body| && body[i].patientId == t.baselines[k].patientId
    {
      assert t.baselines[k] in rows;
      var i :| 0 <= i < |rows| && rows[i] == t.baselines[k];
      assert body[i].patientId == t.baselines[k].patientId;
    }
  }

  // ---------------------------------------------------------------------------
  // GET /mine

  /** `SELECT * FROM patients WHERE user_id = ?` read with `.get`: the first
      matching row in rowid order. */
  function PatientOfAccount(t: Tables, userId: int): (r: Option<int>)
    requires WellFormed(t)
    ensures r.None? <==> forall k :: k in t.patients ==> t.patients[k].userId != Some(userId)
    ensures r.Some? ==>
      && r.value in t.patients && t.patients[r.value].userId == Some(userId)
      && forall k :: k in t.patients && k < r.value ==> t.patients[k].userId != Some(userId)
  {
    First(t.patients, t.patientSeq, (p: Patient) => p.userId == Some(userId))
  }

  const NO_RECORD := "No health record found for this account. Visit the clinic to register."
  const NO_VITALS := "No vitals on file yet."

  /** `SELECT * FROM patient_vitals WHERE patient_id = ?` read with `.get`. */
  function BaselineOf(t: Tables, patientId: int): (r: Option<int>)
    requires WellFormed(t)
    ensures r.None? <==> forall k :: k in t.baselines ==> t.baselines[k].patientId != patientId
    ensures r.Some? ==> r.value in t.baselines && t.baselines[r.value].patientId == patientId
  {
    First(t.baselines, t.baselineSeq, (b: Baseline) => b.patientId == patientId)
  }

  /** GET /mine: the caller's own reading, from the baseline of the first
      patient row linked to the caller's account. */
  function Mine(t: Tables, caller: AuthUser, noise: Noise, now: string): (r: Response<Reading>)
    requires WellFormed(t)
    ensures r.Success? <==>
      PatientOfAccount(t, caller.id).Some? && BaselineOf(t, PatientOfAccount(t, caller.id).value).Some?
    ensures r.Success? ==>
      var k := r.body.patientId;
      var b := BaselineOf(t, k);
      && k == PatientOfAccount(t, caller.id).value
      && k in t.patients && t.patients[k].userId == Some(caller.id) && b.Some?
      && r.body == BuildResponse(t.baselines[b.value], k, t.patients[k].name, t.patients[k].riskLevel, noise, now)
    ensures r.Failure? ==> r.status == 404
    ensures r.Failure? ==>
      (r.error == NO_RECORD <==> forall k :: k in t.patients ==> t.patients[k].userId != Some(caller.id))
    ensures r.Failure? && r.error != NO_RECORD ==> r.error == NO_VITALS
  {
    match PatientOfAccount(t, caller.id)
    case None => Failure(404, NO_RECORD)
    case Some(k) =>
      match BaselineOf(t, k)
      case None => Failure(404, NO_VITALS)
      case Some(v) =>
        var p := t.patients[k];
        Success(200, BuildResponse(t.baselines[v], p.id, p.name, p.riskLevel, noise, now))
  }
}
