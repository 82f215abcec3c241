# RuralCare clinic backend — a Dafny model

RuralCare is a clinic backend for rural health workers. It is an Express server over one SQLite
file. Route handlers check the caller's role and the JSON body, then read or write the tables:

- users, doctors and patients;
- vitals baselines;
- doctor availability slots and appointments;
- consultation notes;
- medicines and prescriptions.

A frontend utility classifies live vitals into risk levels and builds an alert list.

This project models that core in Dafny and proves properties of it.

- **The store.** `Schema.Database` is a class with one `map` field per table (primary key to row)
  and one field per AUTOINCREMENT counter. `Snapshot()` returns its value as a `Schema.Tables`.
- **Handlers that write.** Each is a method that `modifies` the database. It runs the handler's
  statements in the source's order, and its `ensures` ties the response and the new tables to a pure
  step function on `Tables` (`CreateSpec`, `UpdateSpec`, `DispenseSpec`, …). The step functions
  carry the contracts: every error status with its condition, the store unchanged on error, and the
  exact new rows on success. Lemmas relate the steps to the invariants they keep.
- **Reads.** Each read handler is a function. Its contract says which rows come back, that each row
  comes back exactly once, and that they are in the `ORDER BY` order. Strings compare
  lexicographically, as SQLite's default collation does.
- **Request bodies.** A JSON field is `Field<T>`: `Undefined`, `Null` or `Given(v)`. JavaScript
  truthiness is written out: `0` and `""` are falsy.
- **Foreign calls.** bcrypt hashing and comparison and JWT signing and verification are function
  parameters. The random jitter is a `Noise` parameter. The clock is a `now` string.
- **Startup.** `db.ts` is modelled as an imperative method, `Startup.Start`. It applies the four
  run-once migrations, then the count-gated seeds, the baseline loop (a `for` loop with its
  invariant), and the admin, medicine and pharmacy seeds. An `INSERT OR IGNORE` that the UNIQUE
  `patient_id` turns away still spends an AUTOINCREMENT id, so every startup advances the
  `patient_vitals` counter by one per patient.

Foreign keys are enforced, as the SQLite driver does by default and the migrations also request:
an INSERT or UPDATE naming a missing row fails with a 500, and deleting a patient or a slot cascades (`ON DELETE CASCADE`,
`ON DELETE SET NULL`). `Schema.SlotRefsResolve` states that every appointment's slot reference
resolves; every write route keeps it.

The central booking invariant is `Appointments.Duality`: no slot is referenced by two appointments,
and a slot is booked exactly when one appointment references it.

- Create and delete of appointments keep it.
- Slot creation and slot deletion keep it.
- Update keeps it except in four situations, each shown by a concrete counterexample in module
  `AppointmentGaps`:
  - a patient's reschedule to a missing or booked slot frees the old slot before the check fails,
    and leaves the appointment still pointing at it;
  - a staff reschedule books an already booked slot without a check;
  - `availability_id: null` frees the slot, but `?? existing` keeps the reference;
  - a request that changes the slot and whose UPDATE the engine refuses (a slot id of 0 or of a
    missing slot, or on the staff path a missing patient or doctor) fails with 500 after the old
    slot was already freed.
- Deleting a patient cascades to their appointments but leaves the slots they held booked; a
  counterexample in `AppointmentGaps` shows it.

`AppointmentGaps` also shows that create accepts another doctor's slot, and that it demands a
`date` even when a slot, which carries its own date, is chosen.

## Model

| member | source | states |
|---|---|---|
| Appointments.SlotBooked | backend/dist/routes/appointments.js:18-22 | only the slot with the given truthy id changes, and only its booked flag; a null or absent id changes nothing |
| Appointments.SetSlotBooked | backend/dist/routes/appointments.js:18-22 | the UPDATE of `is_booked` leaves exactly the tables `SlotBooked` describes |
| Appointments.RefsAfterPut | backend/dist/routes/appointments.js:88-91 | writing appointment `id` changes the references to slot s only by `id` |
| Appointments.RefsAfterRemove | backend/dist/routes/appointments.js:149 | deleting appointment `id` removes only `id` from any slot's references |
| Appointments.OnlyRef | backend/dist/routes/appointments.js:148 | under duality, an appointment holding slot s is its only reference and s is booked |
| Appointments.NoRefs | backend/dist/routes/appointments.js:81-87 | under duality, a free slot is referenced by no appointment |
| Appointments.ListedRows | backend/dist/routes/appointments.js:26-49 | the selected rows are exactly the appointments with an existing doctor (and, for a patient, booked by that account), each once, ordered by date descending |
| Appointments.List | backend/dist/routes/appointments.js:26-49 | a patient sees only appointments whose `user_id` is theirs; staff see all; each appears once with its doctor and patient names; latest date first |
| Appointments.ListViews | backend/dist/routes/appointments.js:28-48 | mapping the joined names over the sorted rows keeps the same rows and the date order |
| Appointments.Get | backend/dist/routes/appointments.js:52-67 | 404 when the id is absent or its doctor row is gone; 403 when a patient asks for another account's appointment; otherwise the joined row |
| Appointments.CreateSpec | backend/dist/routes/appointments.js:71-94 | 400 iff `doctor_id` or `date` is falsy (a chosen slot does not lift the date requirement); 404 iff the doctor is unknown; 404 iff a truthy slot id names no slot and 409 iff it names a booked slot; 500 iff the INSERT is then refused (the status breaks the CHECK, or the patient, account or slot it names does not exist); the store is unchanged on every error; success iff every check passes and the engine accepts the row, which carries the requested `doctor_id` and `date` |
| Appointments.Create | backend/dist/routes/appointments.js:71-94 | the handler's checks, insert and slot update leave exactly `CreateSpec`'s response and tables |
| Appointments.NewAppointment | backend/dist/routes/appointments.js:72-89 | the inserted row: the next id, `patient_id` from the body only for staff (`?? null`), the caller's `user_id`, `availability_id ?? null`, and `status \|\| 'scheduled'` |
| Appointments.CreateEffect | backend/dist/routes/appointments.js:73-91 | a created appointment has a fresh id, `user_id` of the caller, the requested `doctor_id` and `date`, `patient_id` from the body only for staff, status defaulting to scheduled, and the chosen slot booked; nothing else changes |
| Appointments.CreateKeepsWellFormed | backend/dist/routes/appointments.js:88-91 | create keeps every row under its own key and below its counter |
| Appointments.BookKeepsDuality | backend/dist/routes/appointments.js:81-91 | inserting an appointment that books a free slot, or none, keeps slot/appointment duality |
| Appointments.CreateKeepsDuality | backend/dist/routes/appointments.js:81-91 | create keeps slot/appointment duality |
| Appointments.UpdateSpec | backend/dist/routes/appointments.js:98-137 | 404 iff absent; 400 iff the status field is present but neither scheduled nor completed; 403 iff a patient's appointment belongs to another account; for the owner, 400 iff the date is falsy, then for a changing truthy slot 404 iff it is missing and 409 iff it is booked, both after the old slot was freed; 500 iff the UPDATE is refused (missing slot, or on the staff path a missing patient or doctor), keeping the slot writes; success otherwise, the patient's row with the new date and `availability_id ?? existing`, the staff row with every column `field ?? existing`; the appointment keys never change |
| Appointments.SlotChanging | backend/dist/routes/appointments.js:113 | `availability_id !== undefined && availability_id !== existing.availability_id`, with null equal only to null |
| Appointments.ExchangeSlots | backend/dist/routes/appointments.js:113-122 | the old slot freed, then the new one booked when its id is truthy; `Appointments.ExchangeAt` states its effect slot by slot |
| Appointments.UpdatedRow | backend/dist/routes/appointments.js:124-135 | the row each path's UPDATE writes: date and `availability_id ?? existing` for a patient, every column `field ?? existing` for staff |
| Appointments.UpdateAccepted | backend/dist/routes/appointments.js:124-135 | the engine accepts that UPDATE iff the foreign keys of the columns it sets resolve and, on the staff path, the status passes the CHECK |
| Appointments.Update | backend/dist/routes/appointments.js:98-137 | the handler's slot updates and UPDATE, run in order, leave exactly `UpdateSpec`'s response and tables |
| Appointments.RescheduleShape | backend/dist/routes/appointments.js:106-126 | on the patient path, a success writes only the row under the id, changes only its date (to the given one) and its slot (to `availability_id ?? existing`), and exchanges the slots only when the slot changes |
| Appointments.StaffUpdateShape | backend/dist/routes/appointments.js:128-136 | on the staff path, a success writes only the row under the id, sets `patient_id`, `doctor_id`, `availability_id`, `date` and `status` each to its field `?? existing`, keeps `user_id`, and exchanges the slots only when the slot changes |
| Appointments.UpdateSuccessShape | backend/dist/routes/appointments.js:113-135 | on success the new slot reference is `availability_id ?? existing`, and slots change exactly when `availability_id` is given and differs |
| Appointments.UpdateFailureUnchanged | backend/dist/routes/appointments.js:100-135 | apart from the slot-changing paths of `BreaksDualityRisk`, every failed update leaves the store as it was |
| Appointments.ExchangeAt | backend/dist/routes/appointments.js:113-134 | after the exchange, slot s is booked if it is the new slot, free if it was the old one, and otherwise unchanged |
| Appointments.UpdateFrame | backend/dist/routes/appointments.js:113-135 | PUT /:id writes only the slots and appointments tables, keeps the slot ids, and leaves the appointments untouched whenever it fails |
| Appointments.UpdateKeepsDualityOtherwise | backend/dist/routes/appointments.js:98-137 | update keeps duality unless it changes the slot to null, to a missing or booked slot, or in a request whose UPDATE the engine then refuses |
| Appointments.UpdateSlotAt | backend/dist/routes/appointments.js:113-135 | slot by slot, the exchange keeps at most one reference per slot and booked exactly when referenced |
| Appointments.DeleteSpec | backend/dist/routes/appointments.js:140-151 | 404 iff absent; 403 iff a patient deletes another account's appointment; success iff present and owned by the caller or the caller is staff, and then it frees the linked slot and removes exactly that appointment |
| Appointments.Delete | backend/dist/routes/appointments.js:140-151 | the handler leaves exactly `DeleteSpec`'s response and tables |
| Appointments.UnbookKeepsWellFormed | backend/dist/routes/appointments.js:147-149 | removing an appointment and freeing its slot keeps the store well formed |
| Appointments.UnbookKeepsDuality | backend/dist/routes/appointments.js:140-151 | removing an appointment and freeing the slot it referenced keeps duality |
| Appointments.DeleteKeepsDuality | backend/dist/routes/appointments.js:140-151 | delete keeps well-formedness and slot/appointment duality |
| Appointments.CreateKeepsSlotRefs | backend/dist/routes/appointments.js:88-89 | after a create every appointment's slot reference still resolves, since the engine refuses an INSERT naming a missing slot |
| Appointments.UpdateKeepsSlotRefs | backend/dist/routes/appointments.js:113-135 | after any update every slot reference still resolves: the slot writes keep the slot ids and an UPDATE naming a missing slot is refused |
| Appointments.DeleteKeepsSlotRefs | backend/dist/routes/appointments.js:140-151 | after a delete every remaining slot reference still resolves |
| AppointmentGaps.TwoBookings | backend/dist/routes/appointments.js:88-91 | the two-booking store used by the counterexamples is well formed and every slot reference in it resolves |
| AppointmentGaps.TwoBookingsDual | backend/dist/routes/appointments.js:88-91 | that store satisfies duality |
| AppointmentGaps.PatientRescheduleFreesBeforeCheck | backend/dist/routes/appointments.js:113-120 | a patient moving to a booked slot gets 409, yet the old slot is now free while the appointment still references it, so duality breaks |
| AppointmentGaps.StaffRescheduleDoubleBooks | backend/dist/routes/appointments.js:129-135 | a staff move to a booked slot succeeds and two appointments reference one slot |
| AppointmentGaps.StaffMoveOutcome | backend/dist/routes/appointments.js:128-136 | the staff move of appointment 1 onto slot 2 succeeds and leaves both appointments pointing at slot 2 |
| AppointmentGaps.NullSlotFreesButKeepsReference | backend/dist/routes/appointments.js:113-135 | `availability_id: null` frees the slot while the appointment keeps pointing at it |
| AppointmentGaps.NullSlotOutcome | backend/dist/routes/appointments.js:113-135 | the `availability_id: null` request succeeds, frees slot 1 and leaves appointment 1's slot reference as it was |
| AppointmentGaps.StaffMissingSlotFreesBeforeFailure | backend/dist/routes/appointments.js:129-135 | a staff move to a missing slot frees the old slot, then the UPDATE fails with 500 and the appointment still references the freed slot, so duality breaks |
| AppointmentGaps.PatientZeroSlotFreesBeforeFailure | backend/dist/routes/appointments.js:113-125 | a patient's `availability_id: 0` frees the old slot, skips the lookup, and the UPDATE fails with 500, leaving the freed slot referenced |
| AppointmentGaps.CreateZeroSlotFails | backend/dist/routes/appointments.js:80-89 | a create with `availability_id: 0` skips the slot checks and fails with 500, changing nothing |
| AppointmentGaps.CreateWithSlotNeedsDate | backend/dist/routes/appointments.js:74-76 | a create naming a free slot but no date is refused with 400 |
| AppointmentGaps.PatientDeleteStrandsSlot | backend/src/routes/patients.ts:47-52 | deleting a patient cascades to the appointment holding slot 1, which stays booked with no reference, so duality breaks |
| AppointmentGaps.LinkedDeleteOutcome | backend/src/routes/patients.ts:47-52 | in a dual store, deleting the patient linked to appointment 1 succeeds, removes that appointment and leaves the slots untouched |
| AppointmentGaps.CreateIgnoresSlotDoctor | backend/dist/routes/appointments.js:81-91 | create books doctor 2's slot for an appointment with doctor 1 |
| Availability.ListedRows | backend/src/routes/availability.ts:14-44 | the selected slots are exactly those passing the role scope and the optional filters, each once, ordered by date then start time |
| Availability.List | backend/src/routes/availability.ts:14-44 | every listed slot is a stored slot passing the filter; every such slot is listed once; ascending by (date, start_time) |
| Availability.ListViews | backend/src/routes/availability.ts:33-43 | adding the doctor's name keeps the rows and their order |
| Availability.NonDoctorsSeeOnlyFreeSlots | backend/src/routes/availability.ts:26-29 | a caller who is not a doctor never receives a booked slot |
| Availability.DoctorsSeeOwnSlots | backend/src/routes/availability.ts:19-25 | a doctor receives every slot, booked or not, of a doctor row carrying their account name that passes the filters |
| Availability.CreateSpec | backend/src/routes/availability.ts:48-73 | 403 unless doctor or admin; 400 iff a field is missing; 404 iff the doctor is unknown; 409 iff the (doctor, date, start_time) triple exists; success iff all checks pass, adding exactly one new free slot |
| Availability.Create | backend/src/routes/availability.ts:48-73 | the handler leaves exactly `CreateSpec`'s response and tables |
| Availability.CreateKeepsNoDuplicates | backend/src/routes/availability.ts:61-72 | POST never creates a second slot with the same (doctor, date, start_time) |
| Availability.CreateKeepsDuality | backend/src/routes/availability.ts:69-72 | a new free slot keeps slot/appointment duality and every slot reference resolving |
| Availability.DeleteSpec | backend/src/routes/availability.ts:77-89 | 403 for other roles; 404 iff absent; 409 iff booked; success iff a doctor or admin deletes a present unbooked slot, and then it removes only that slot, and `ON DELETE SET NULL` clears the slot reference of any appointment holding it, changing nothing else |
| Availability.Delete | backend/src/routes/availability.ts:77-89 | the handler leaves exactly `DeleteSpec`'s response and tables |
| Availability.DeleteKeepsDuality | backend/src/routes/availability.ts:83-88 | removing an unbooked slot keeps duality |
| Availability.DeleteKeepsSlotRefs | backend/src/routes/availability.ts:87 | after a slot delete every appointment's slot reference still resolves |
| Prescriptions.JoinedRows | backend/src/routes/prescriptions.ts:9-22 | the selected rows are exactly the prescriptions whose medicine, patient and doctor exist, each once, sorted by status then created_at, both descending |
| Prescriptions.List | backend/src/routes/prescriptions.ts:9-22 | 403 unless pharmacy or admin; otherwise every joined prescription once, status descending and newest first within a status |
| Prescriptions.ListViews | backend/src/routes/prescriptions.ts:11-20 | adding the joined names keeps the rows and their order |
| Prescriptions.PendingBeforeDispensed | backend/src/routes/prescriptions.ts:19 | in the list no dispensed prescription comes before a pending one |
| Prescriptions.PendingSortsAfterDispensed | backend/src/routes/prescriptions.ts:19 | "dispensed" sorts before "pending" ascending, so descending order puts pending first |
| Prescriptions.PatientRows | backend/src/routes/prescriptions.ts:26-44 | the selected rows are exactly that patient's joined prescriptions, newest first |
| Prescriptions.ListForPatient | backend/src/routes/prescriptions.ts:26-44 | the per-patient list holds exactly that patient's prescriptions, each once, newest first |
| Prescriptions.PatientViews | backend/src/routes/prescriptions.ts:31-41 | adding the medicine and doctor names keeps the rows and their order |
| Prescriptions.CreateSpec | backend/src/routes/prescriptions.ts:48-77 | 403 unless doctor; 400 when `patient_id`/`medicine_id` or `doctor_id` is missing; 500 with the engine's message iff the patient, doctor or medicine named does not exist; success iff a doctor names existing rows, adding exactly one new pending prescription |
| Prescriptions.Create | backend/src/routes/prescriptions.ts:48-77 | the handler leaves exactly `CreateSpec`'s response and tables |
| Prescriptions.DispenseSpec | backend/src/routes/prescriptions.ts:81-111 | the intended dispense: 403, 404, "Already dispensed", the 500 for a missing medicine row and "Out of stock" exactly under their conditions and with no change; success iff they all pass, and then it marks the prescription dispensed with a time and takes exactly one unit of that medicine's stock |
| Prescriptions.Dispense | backend/src/routes/prescriptions.ts:81-111 | the checks and the two-statement transaction, with `datetime('now')`, leave exactly `DispenseSpec`'s response and tables |
| Prescriptions.DispenseKeepsStock | backend/src/routes/prescriptions.ts:94-103 | dispensing never makes a stock negative |
| Prescriptions.DispenseNeverReverts | backend/src/routes/prescriptions.ts:89-103 | a dispensed prescription stays exactly as it was, whatever is dispensed next |
| Prescriptions.DispenseAsWritten | backend/src/routes/prescriptions.ts:81-111 | the handler as written: every check as in `DispenseSpec`, and wherever that dispense would succeed, the double-quoted `"now"` makes the transaction throw, so the answer is 500 "no such column: now"; no request changes the store |
| Prescriptions.DispenseAsWrittenFails | backend/src/routes/prescriptions.ts:99-110 | a pharmacy dispense of a pending prescription with stock 5 answers 500 and leaves it pending with stock 5, where the intended dispense answers 200 and leaves 4 |
| Prescriptions.DispenseOnce | backend/src/routes/prescriptions.ts:89-91 | dispensing the same prescription a second time answers "Already dispensed" and changes nothing |
| VitalsUtils.Rank | frontend/src/utils/vitalsUtils.ts:39 | normal ranks 0, critical 2, warning between |
| VitalsUtils.HeartRateRisk | frontend/src/utils/vitalsUtils.ts:21-25 | critical iff hr > 130 or hr < 50; warning iff not critical and (hr > 100 or hr < 60); normal iff 60..100 |
| VitalsUtils.SpO2Risk | frontend/src/utils/vitalsUtils.ts:27-31 | critical iff ≤ 90; warning iff 91..95; normal iff > 95 |
| VitalsUtils.GlucoseRisk | frontend/src/utils/vitalsUtils.ts:33-37 | critical iff > 200 or < 55; warning iff not critical and (> 140 or < 70); normal iff 70..140 |
| VitalsUtils.MoreSevere | frontend/src/utils/vitalsUtils.ts:47 | the reducer returns one of its arguments, ranked at least as high as both, and the left one on a tie |
| VitalsUtils.OverallRisk | frontend/src/utils/vitalsUtils.ts:41-48 | the three metric levels reduced by `MoreSevere`; `VitalsUtils.OverallRiskIsMax` and `OverallRiskLevels` state its meaning |
| VitalsUtils.OverallRiskIsMax | frontend/src/utils/vitalsUtils.ts:39-48 | the rank of the combined risk is the largest of the three metric ranks |
| VitalsUtils.OverallRiskLevels | frontend/src/utils/vitalsUtils.ts:41-48 | overall normal iff all three are normal; overall critical iff some metric is critical |
| VitalsUtils.AlertsOf | frontend/src/utils/vitalsUtils.ts:53-80 | one reading's alerts, heart rate then SpO2 then glucose, each only when not normal; `VitalsUtils.AlertsOfExactly` states it |
| VitalsUtils.Pushed | frontend/src/utils/vitalsUtils.ts:50-81 | the alerts the loop pushes, reading by reading in order |
| VitalsUtils.SortByRank | frontend/src/utils/vitalsUtils.ts:83 | the critical alerts, then the warnings, then the rest, each run in pushed order |
| VitalsUtils.AlertsOfExactly | frontend/src/utils/vitalsUtils.ts:54-80 | a reading gives one alert per non-normal metric and none for a normal one, each with the patient, the value and the level |
| VitalsUtils.PushedMembers | frontend/src/utils/vitalsUtils.ts:52-81 | an alert is pushed iff it is one of some reading's alerts |
| VitalsUtils.AtLevelMembers | frontend/src/utils/vitalsUtils.ts:83 | the run of one level holds exactly the pushed alerts of that level |
| VitalsUtils.LevelsPartition | frontend/src/utils/vitalsUtils.ts:83 | the three level runs together hold each pushed alert exactly as often as it was pushed |
| VitalsUtils.SortByRankSorted | frontend/src/utils/vitalsUtils.ts:83 | the sorted alerts are in non-increasing rank |
| VitalsUtils.SortByRankPermutes | frontend/src/utils/vitalsUtils.ts:83 | the sort keeps every pushed alert exactly as often (a permutation) |
| VitalsUtils.PushedStep | frontend/src/utils/vitalsUtils.ts:52-81 | one more reading appends exactly that reading's alerts |
| VitalsUtils.PushAlerts | frontend/src/utils/vitalsUtils.ts:53-80 | one reading's pushes append exactly its alerts: heart rate, SpO2, glucose, each when not normal |
| VitalsUtils.GenerateAlerts | frontend/src/utils/vitalsUtils.ts:50-84 | the loop's result is the pushed alerts in rank order |
| VitalsFeed.Jitter | backend/src/routes/vitals.ts:10-12 | the jittered value lies within [base − range, base + range] |
| VitalsFeed.Clamp | backend/src/routes/vitals.ts:22-24 | the clamped value lies in [lo, hi], equals x inside the range and the bound outside it |
| VitalsFeed.BuildResponse | backend/src/routes/vitals.ts:17-27 | heart rate in [30,200], SpO2 in [70,100], glucose in [40,400] whatever the baseline; id, name and risk copied unchanged |
| VitalsFeed.BuildResponseNearBaseline | backend/src/routes/vitals.ts:17-27 | each reading is within its jitter range of the baseline, or pinned at a bound |
| VitalsFeed.ClampIdleInsideRange | backend/src/routes/vitals.ts:22-24 | a baseline far enough inside the bounds gives exactly baseline + noise |
| VitalsFeed.FeedRows | backend/src/routes/vitals.ts:35-40 | the selected baselines are exactly those whose patient exists, each once, by patient name |
| VitalsFeed.Readings | backend/src/routes/vitals.ts:42 | one reading per row, the i-th built from row i |
| VitalsFeed.ListAsWritten | backend/src/routes/vitals.ts:30-43 | 403 for patients; otherwise readings labelled with the baseline row's own id, as the code does |
| VitalsFeed.ListAsWrittenMislabels | backend/src/routes/vitals.ts:35-42 | patient 7 with baseline row 6 is reported as patient 6 |
| VitalsFeed.List | backend/src/routes/vitals.ts:30-43 | 403 for patients; otherwise readings labelled with the patient id |
| VitalsFeed.ListReadingsLabelled | backend/src/routes/vitals.ts:30-43 | every reading names an existing patient, carries that patient's name and risk level, and is built from that patient's baseline |
| VitalsFeed.ListReadingsComplete | backend/src/routes/vitals.ts:35-42 | one reading per joined baseline, every joined patient present, ordered by patient name |
| VitalsFeed.PatientOfAccount | backend/src/routes/vitals.ts:48-52 | the first patient row whose `user_id` is the account, or none when no row has it |
| VitalsFeed.BaselineOf | backend/src/routes/vitals.ts:55-59 | a baseline of that patient, or none when it has none |
| VitalsFeed.Mine | backend/src/routes/vitals.ts:46-65 | 404 "No health record" iff no patient row has the caller's `user_id`; 404 "No vitals on file yet." iff that patient has no baseline; otherwise the reading built from that baseline |
| AuthMiddleware.Split | backend/src/middleware/auth.ts:28 | `split(' ')` gives at least one field and no field holds the separator |
| AuthMiddleware.SplitFirst | backend/src/middleware/auth.ts:28 | the first field is a prefix of the header ended by the separator or by the end |
| AuthMiddleware.SplitMany | backend/src/middleware/auth.ts:28 | there are two fields or more iff the separator occurs |
| AuthMiddleware.SplitRest | backend/src/middleware/auth.ts:28 | the fields after the first are the split of the text after the first separator |
| AuthMiddleware.SplitHead | backend/src/middleware/auth.ts:28 | the first field is a prefix ended by the separator or the end; there are two fields or more iff the separator occurs |
| AuthMiddleware.Token | backend/src/middleware/auth.ts:28 | the token is the space-free run after "Bearer " up to the next space or the end |
| AuthMiddleware.BearerHead | backend/src/middleware/auth.ts:25-28 | for a "Bearer " header the first field is "Bearer", so field 1 is the token |
| AuthMiddleware.Authenticate | backend/src/middleware/auth.ts:23-36 | 401 "No token provided" iff the header is missing or lacks "Bearer "; 401 "Invalid or expired token" iff verification fails; otherwise continues with the decoded user |
| AuthMiddleware.RoleNames | backend/src/middleware/auth.ts:43 | each role is rendered by its stored name |
| AuthMiddleware.JoinOr | backend/src/middleware/auth.ts:43 | `roles.join(' or ')`: the names in order with " or " between them |
| AuthMiddleware.RequireRole | backend/src/middleware/auth.ts:39-47 | 401 iff no user; 403 iff the role is not allowed, with the roles joined by " or "; continues iff a user with an allowed role is attached |
| AuthMiddleware.Guard | backend/src/middleware/auth.ts:39-47 | for an authenticated caller, no error iff the role is allowed, else the 403 message |
| AuthMiddleware.PharmacyGateMessage | backend/src/routes/prescriptions.ts:9 | doctors and patients get "Access denied. Required role: pharmacy or admin" |
| AuthRoutes.RegisterSpec | backend/src/routes/auth.ts:10-46 | 400 iff a field is missing; 403 for any requested role but patient; 409 iff the email exists; success iff the request is complete, asks for no other role and names a fresh email, and then adds one patient user and one linked patient row with risk low, and returns a token for that user |
| AuthRoutes.Register | backend/src/routes/auth.ts:10-46 | the two inserts, run in order, leave exactly `RegisterSpec`'s response and tables |
| AuthRoutes.RegisterKeepsInvariants | backend/src/routes/auth.ts:22-35 | register keeps the store well formed and emails unique |
| AuthRoutes.AccountOf | backend/src/routes/auth.ts:57-58 | finds the account with this email, or none iff no account has it |
| AuthRoutes.Login | backend/src/routes/auth.ts:49-76 | 400 iff email or password is missing; every other failure is 401 "Invalid email or password"; success returns the stored id, name, email and role, never the hash |
| AuthRoutes.LoginSucceedsIff | backend/src/routes/auth.ts:57-75 | with both fields present, login succeeds iff some account has that email and the password matches its hash |
| AuthRoutes.RegisterThenLogin | backend/src/routes/auth.ts:10-76 | after a successful register, logging in with the same email and password returns the same session |
| Admin.AdminGateMessage | backend/src/routes/admin.ts:9 | the admin gate's message is "Access denied. Required role: admin" |
| Admin.CreateDoctorSpec | backend/src/routes/admin.ts:9-38 | 403 unless admin; 400 iff a field is missing; 409 iff the email exists; success iff an admin sends a complete request with a fresh email, and then adds one doctor user and one doctor row with the same name and the given specialization |
| Admin.CreateDoctor | backend/src/routes/admin.ts:9-38 | the two inserts leave exactly `CreateDoctorSpec`'s response and tables |
| Admin.CreateDoctorKeepsInvariants | backend/src/routes/admin.ts:16-31 | create-doctor keeps the store well formed and emails unique |
| Admin.UserRows | backend/src/routes/admin.ts:41-44 | every account once, newest first |
| Admin.ListUsers | backend/src/routes/admin.ts:41-44 | 403 unless admin; otherwise every account once without its password, ordered by created_at descending |
| Admin.UserViews | backend/src/routes/admin.ts:42 | dropping the password keeps the accounts and their order |
| Patients.List | backend/src/routes/patients.ts:7-10 | every patient once, ordered by created_at descending |
| Query.SelectSorted | backend/src/routes/patients.ts:7-10 | `SELECT … WHERE … ORDER BY`: exactly the selected rows, each once, sorted by the key |
| Query.First | backend/src/routes/vitals.ts:48-52 | `.get()` on a WHERE query: none iff no row matches, else the matching row with the least id |
| Patients.Get | backend/src/routes/patients.ts:13-17 | the row when present, 404 iff absent |
| Patients.CreateSpec | backend/src/routes/patients.ts:20-31 | 400 iff a field is falsy (age 0 included); 500 iff the risk level breaks the CHECK; success iff the request is complete with a valid risk level, adding exactly one new row with the given fields |
| Patients.Create | backend/src/routes/patients.ts:20-31 | the handler leaves exactly `CreateSpec`'s response and tables |
| Patients.UpdateSpec | backend/src/routes/patients.ts:34-44 | 404 iff absent; 500 iff a NOT NULL or CHECK column is violated; success iff the id is present and the row is accepted, and then it replaces the seven fields of that row only |
| Patients.Replaced | backend/src/routes/patients.ts:38-41 | the UPDATE's row: all seven fields replaced by the body's values, absent ones bound as NULL |
| Patients.UpdateRejected | backend/src/routes/patients.ts:38-41 | the UPDATE fails iff name or risk level is absent (NOT NULL) or the risk level breaks the CHECK |
| Patients.Update | backend/src/routes/patients.ts:34-44 | the handler leaves exactly `UpdateSpec`'s response and tables |
| Patients.DeleteSpec | backend/src/routes/patients.ts:47-52 | 404 iff absent; otherwise removes that patient, and the cascade removes exactly their appointments, notes, prescriptions and baseline; every surviving row keeps its values, and slots, users, doctors and every counter are untouched |
| Patients.Delete | backend/src/routes/patients.ts:47-52 | the handler leaves exactly `DeleteSpec`'s response and tables |
| Patients.CreateKeepsInvariants | backend/src/routes/patients.ts:25-30 | create keeps the store well formed and every risk level valid, and changes no existing row |
| Patients.UpdateKeepsInvariants | backend/src/routes/patients.ts:36-43 | update keeps the invariants, the key set, and every other row |
| Patients.DeleteKeepsInvariants | backend/src/routes/patients.ts:48-51 | delete keeps the invariants and every slot reference resolving, removes exactly that key, and leaves no appointment, note, prescription or baseline naming the deleted patient |
| Consultations.ShownRows | backend/src/routes/consultations.ts:7-27 | the selected notes are exactly those with an existing patient (of that patient, when given), each once, newest first |
| Consultations.List | backend/src/routes/consultations.ts:7-27 | every shown note once with its patient's name, newest first; the per-patient list holds only that patient's notes |
| Consultations.ListViews | backend/src/routes/consultations.ts:9-25 | adding the patient name keeps the rows and their order |
| Consultations.PatientListIsSubset | backend/src/routes/consultations.ts:18-27 | the per-patient list is exactly the full list's notes of that patient |
| Consultations.OrNullStr | backend/src/routes/consultations.ts:41 | `summary \|\| null`: present iff truthy, and then the given text |
| Consultations.OrNullInt | backend/src/routes/consultations.ts:41 | `follow_up_days \|\| null`: 0 is stored as null |
| Consultations.CreateSpec | backend/src/routes/consultations.ts:30-44 | 400 iff `patient_id` or `raw_note` is missing; 404 iff the patient is absent; success iff both are given and the patient exists, adding one new note, with falsy summary and follow-up stored as null |
| Consultations.Create | backend/src/routes/consultations.ts:30-44 | the handler leaves exactly `CreateSpec`'s response and tables |
| Consultations.CreatedNoteListed | backend/src/routes/consultations.ts:18-44 | a created note appears in its patient's list |
| Consultations.DeleteSpec | backend/src/routes/consultations.ts:47-52 | 404 iff absent; otherwise removes that note only |
| Consultations.Delete | backend/src/routes/consultations.ts:47-52 | the handler leaves exactly `DeleteSpec`'s response and tables |
| Doctors.List | backend/src/routes/doctors.ts:7-10 | every doctor once, sorted by name ascending |
| Doctors.CreateSpec | backend/src/routes/doctors.ts:13-21 | 400 iff name or specialization is missing; otherwise one doctor with a fresh id, returned as inserted |
| Doctors.Create | backend/src/routes/doctors.ts:13-21 | the handler leaves exactly `CreateSpec`'s response and tables |
| Doctors.CreateListed | backend/src/routes/doctors.ts:13-21 | the new doctor has a fresh id, appears in the list, and the list grows by one |
| Schema.Database.Open | backend/src/db.ts:12-102 | a freshly created database file has every table empty |
| Schema.PatientRemoved | backend/src/db.ts:32-97 | deleting a patient removes their row and, by `ON DELETE CASCADE`, exactly the appointments, notes, prescriptions and baselines naming them; every other row stays as it was |
| Schema.SlotRemoved | backend/src/db.ts:174-179 | deleting a slot removes it and, by `ON DELETE SET NULL`, nulls exactly the slot references that named it, keeping every appointment key |
| Startup.LargestKey | backend/src/db.ts:121-122 | a rebuilt table's counter is the largest id copied, or 0 |
| Startup.NullUserIds | backend/src/db.ts:121-122 | the first rebuild keeps every appointment and sets its new `user_id` to NULL |
| Startup.NullPatientUserIds | backend/src/db.ts:155-156 | the patients rebuild keeps every row and sets its new `user_id` to NULL |
| Startup.NullAvailabilityIds | backend/src/db.ts:185-186 | the second appointments rebuild keeps every row and sets `availability_id` to NULL |
| Startup.RebuiltKeepsWellFormed | backend/src/db.ts:108-129 | a rebuild keeps the store well formed and the baselines untouched |
| Startup.MigrationStep | backend/src/db.ts:106-131 | a migration runs only when its marker is absent, and the marker is recorded afterwards |
| Startup.Marker | backend/src/db.ts:106-221 | the name each migration records in `migrations` |
| Startup.Rebuilt | backend/src/db.ts:108-219 | each migration's table copy: every row kept, its new column NULL, the counter the largest id copied |
| Startup.Rebuild | backend/src/db.ts:108-129 | the table copy leaves exactly `Rebuilt`'s tables |
| Startup.ApplyMigration | backend/src/db.ts:106-131 | the gated block leaves exactly `MigrationStep`'s tables |
| Startup.Migrated | backend/src/db.ts:105-223 | after the four blocks every marker is recorded; a store that has them all is left as it was |
| Startup.MigrationStepKeepsWellFormed | backend/src/db.ts:106-131 | each migration keeps the store well formed and the one-baseline-per-patient rule |
| Startup.MigratedKeepsWellFormed | backend/src/db.ts:105-223 | the four migrations keep those invariants and the baselines |
| Startup.MigrationStepKeepsUsers | backend/src/db.ts:213 | a migration never changes a user row |
| Startup.MigratedKeepsUsers | backend/src/db.ts:105-223 | the migrations never change a user row |
| Startup.PutDoctorsRows | backend/src/db.ts:228-232 | inserting doctors gives the i-th one id counter + i + 1 with its name and specialization, and touches no other key |
| Startup.PutDoctorsKeyed | backend/src/db.ts:228-232 | inserting doctors above the counter keeps every key between 1 and the advanced counter, and the first insert takes counter + 1 |
| Startup.InsertDoctor | backend/src/db.ts:228 | one insert adds exactly one doctor row |
| Startup.SeedDoctors | backend/src/db.ts:226-233 | the doctor seed runs only on an empty table, and then inserts the four sample doctors |
| Startup.SeedDoctorTable | backend/src/db.ts:226-233 | the gated inserts leave exactly `SeedDoctors`'s tables |
| Startup.PutPatientsRows | backend/src/db.ts:238-243 | inserting patients gives the i-th one id counter + i + 1 with its sample fields, and touches nothing else |
| Startup.InsertPatient | backend/src/db.ts:238 | one insert adds exactly one patient row |
| Startup.SeedPatients | backend/src/db.ts:236-244 | the patient seed runs only on an empty table, and then inserts the five sample patients |
| Startup.SeedPatientTable | backend/src/db.ts:236-244 | the gated inserts leave exactly `SeedPatients`'s tables |
| Startup.SeedPatientsRows | backend/src/db.ts:236-244 | a seeded table holds exactly the five sample patients, without accounts and with valid risk levels |
| Startup.BaseForBands | backend/src/db.ts:248-260 | high and medium bases sit in the warning band on every metric; low and any unknown level get the normal base |
| Startup.BaseFor | backend/src/db.ts:248-260 | `vitalsBases[risk_level] ?? vitalsBases['low']`; `Startup.BaseForBands` states the bands |
| Startup.AddBaseline | backend/src/db.ts:253-261 | `INSERT OR IGNORE`: the base of the patient's risk level under the next id, or no row when the patient has one; the id is spent either way |
| Startup.PatientScan | backend/src/db.ts:256-258 | `SELECT id, risk_level FROM patients`, in id order |
| Startup.SeedBaselines | backend/src/db.ts:259-262 | the loop over the scanned patients in order |
| Startup.PatientScanRows | backend/src/db.ts:256-258 | the loop's SELECT returns every patient row, once, and nothing else |
| Startup.AddBaselineFacts | backend/src/db.ts:253-261 | insert-or-ignore adds the risk level's base for a patient without one, never overwrites a row, keeps one baseline per patient, and advances the counter by one either way |
| Startup.SeedBaselinesFacts | backend/src/db.ts:253-262 | after the loop every scanned patient has a baseline, existing rows are untouched, each patient has at most one, and the counter has advanced by the number of patients scanned |
| Startup.SeedBaselinesFrame | backend/src/db.ts:253-262 | the loop writes only the baselines table and its counter |
| Startup.SeedBaselinesIdle | backend/src/db.ts:253-262 | when every patient already has a baseline the loop inserts nothing; only the counter advances, by one per patient |
| Startup.EnsureBaseline | backend/src/db.ts:261 | one pass leaves exactly `AddBaseline`'s tables: the row when the patient has none, and the counter advanced in both cases |
| Startup.SeedBaselineTable | backend/src/db.ts:253-262 | the `for` loop leaves exactly `SeedBaselines` over the scanned patients, spent ids included |
| Startup.InsertUser | backend/src/db.ts:268-270 | one insert adds exactly one user row |
| Startup.SeedAdmin | backend/src/db.ts:265-272 | the admin seed runs only when there are no users, and then adds exactly the Super Admin account |
| Startup.SeedAdminUser | backend/src/db.ts:265-272 | the gated insert leaves exactly `SeedAdmin`'s tables |
| Startup.PutMedicinesKeyed | backend/src/db.ts:277-285 | after inserting medicines every row sits under its own id, and the last one inserted is present |
| Startup.PutMedicinesKeys | backend/src/db.ts:277-285 | inserting medicines adds exactly their ids to the table's keys |
| Startup.PutMedicinesOthers | backend/src/db.ts:277-285 | a medicine whose id none of the inserted rows carries keeps its row |
| Startup.PutMedicinesValues | backend/src/db.ts:277-285 | inserting medicines with distinct ids puts each under its own id |
| Startup.InsertMedicine | backend/src/db.ts:277 | one insert adds exactly one medicine row |
| Startup.SeedMedicines | backend/src/db.ts:275-287 | the medicine seed runs only on an empty table, and then inserts the eight sample medicines |
| Startup.SampleMedicineIdsDistinct | backend/src/db.ts:278-285 | the eight sample medicine ids are distinct |
| Startup.SeedMedicinesRows | backend/src/db.ts:275-287 | a seeded table holds exactly the eight medicines, each under its id, none with negative stock |
| Startup.AddMedicinesStep | backend/src/db.ts:277-285 | one more insert extends the fold by that medicine |
| Startup.SeedMedicineTable | backend/src/db.ts:275-287 | the gated inserts leave exactly `SeedMedicines`'s tables |
| Startup.SeedPharmacy | backend/src/db.ts:290-297 | the pharmacy account is added only when none exists; the insert fails, and startup ends, iff another account already uses its email |
| Startup.SeedPharmacyUser | backend/src/db.ts:290-297 | the gated insert leaves exactly `SeedPharmacy`'s tables and outcome |
| Startup.Start | backend/src/db.ts:105-297 | the whole startup sequence, run in order, leaves exactly `StartSpec`'s tables and outcome |
| Startup.StartSpec | backend/src/db.ts:105-297 | the migrations, the doctor, patient and baseline seeds, the admin and medicine seeds, then the pharmacy seed |
| Startup.MigratedKeeps | backend/src/db.ts:105-223 | migrations keep the store invariant and the users |
| Startup.SeedDoctorsKeeps | backend/src/db.ts:226-233 | the doctor seed keeps the invariant, writes only doctors, and leaves the table non-empty |
| Startup.SeedPatientsKeeps | backend/src/db.ts:236-244 | the patient seed keeps the invariant, writes only patients, and leaves the table non-empty |
| Startup.SeedAdminKeeps | backend/src/db.ts:265-272 | the admin seed keeps the invariant (emails unique), writes only users, and leaves the table non-empty |
| Startup.SeedMedicinesKeeps | backend/src/db.ts:275-287 | the medicine seed keeps the invariant, writes only medicines, and leaves the table non-empty |
| Startup.SeedPharmacyKeeps | backend/src/db.ts:290-297 | the pharmacy seed keeps emails unique and keeps every existing account |
| Startup.ThroughBaselinesFacts | backend/src/db.ts:105-262 | after migrations, doctor and patient seeds and the loop: all markers, non-empty doctors and patients, and a baseline for every patient |
| Startup.ThroughBaselinesUsers | backend/src/db.ts:105-262 | nothing before the admin seed touches the users |
| Startup.SeededFacts | backend/src/db.ts:105-287 | before the pharmacy seed every table the seeds fill is non-empty and every patient has a baseline |
| Startup.AdminThenMedicinesUsers | backend/src/db.ts:265-287 | existing users are kept; on an empty table the only account is the admin |
| Startup.SeededUsers | backend/src/db.ts:105-287 | the same for the whole sequence before the pharmacy seed |
| Startup.SeedPharmacyOutcome | backend/src/db.ts:290-297 | the pharmacy seed keeps the seeded facts, and startup completes iff a pharmacy account then exists |
| Startup.StartOutcome | backend/src/db.ts:105-297 | after startup the store invariant holds, every migration marker is recorded, every seeded table is non-empty, every patient has a baseline, and completion means a pharmacy account exists |
| Startup.StartFailsIff | backend/src/db.ts:290-297 | startup stops iff there is no pharmacy account and its email is already taken |
| Startup.SeededAgain | backend/src/db.ts:105-287 | on a store a startup left, every step before the pharmacy seed finds its work done; only the baseline counter moves |
| Startup.SeedPharmacyAgain | backend/src/db.ts:290-297 | on such a store the pharmacy seed ends as the first run did and writes nothing |
| Startup.StartAgain | backend/src/db.ts:105-297 | a startup on such a store writes no row, ends as the first one did, and advances only the baseline counter |
| Startup.StartIdempotent | backend/src/db.ts:105-297 | running startup again, with any hashes and clock, writes no row and ends the same way; only the baseline counter advances, by one per patient |

## Findings

| source | as written | input that shows it | evidently intended | confidence | as-written member | corrected member |
|---|---|---|---|---|---|---|
| backend/src/routes/vitals.ts:35-42 | the query selects `pv.*`, so `r.id` is the `patient_vitals` row id, and `buildResponse(r, r)` reports that id as `patient_id` | patient 7 whose baseline row has id 6 is reported as patient 6 (with patient 7's name); restarts alone produce such stores, since each spends one baseline id per patient | each reading carries the id of the patient it describes, as `/mine` does | high (not executed) | VitalsFeed.ListAsWritten, VitalsFeed.ListAsWrittenMislabels | VitalsFeed.List, VitalsFeed.ListReadingsLabelled |
| backend/src/routes/prescriptions.ts:101 | the first UPDATE of the dispense transaction writes `datetime("now")`; the SQLite bundled with better-sqlite3 does not accept double-quoted strings, so `"now"` names a missing column and preparing the statement throws, and the catch answers 500 | a pharmacy account dispensing a pending prescription whose medicine has 5 units gets 500 "no such column: now", and the prescription stays pending with 5 units | `datetime('now')`, as every DEFAULT in the schema writes it: the prescription is marked dispensed and one unit is taken | high (not executed) | Prescriptions.DispenseAsWritten, Prescriptions.DispenseAsWrittenFails | Prescriptions.DispenseSpec, Prescriptions.DispenseKeepsStock, Prescriptions.DispenseOnce |

## Left out

- Foreign keys on the tables no modelled route deletes from (users, doctors) only matter for their inserts; the cascades from deleting a user or a doctor are not modelled, since no route in this model deletes either.
- The SQL engine: DDL, WAL, statement parsing and type affinity are not modelled. Ids are integers, and a non-numeric `:id` path parameter is not modelled.
- bcrypt and JWT are function parameters: `hash`, `compare`, `sign` and `verify`. `AuthRoutes.RegisterThenLogin` assumes `compare(password, hash)` holds for the stored hash.
- `Math.random` is not modelled. The jitter is a `Noise` value within the stated ranges, supplied by the caller.
- Timestamps (`new Date()` and `datetime('now')`) are a `now` string supplied by the caller.
- Console logging, HTTP routing, CORS, JSON encoding and the server start are not modelled.
- Engine errors that end in a 500 response are modelled where the routes can meet them: a CHECK or NOT NULL violation on the appointment and patient writes, a foreign key that does not resolve on the appointment and prescription writes, and a dispense whose medicine row no longer exists. Any other engine failure (disk, locking) is not modelled.
- The medicines and reports routes are not part of this model. Medicines appear only as the stock map that dispensing changes.
- The compiled copies under `backend/dist` other than the appointments routes are not modelled. The frontend pages are not modelled either.
- VitalsUtils.AlertsOfExactly: the alert's message text is not modelled. An alert carries the metric, the value and the level it is rendered from.
- Appointments.UpdateKeepsDualityOtherwise: excludes the four update paths that break duality (`Appointments.BreaksDualityRisk`). Those paths are shown instead by the counterexamples in `AppointmentGaps`.
- Startup.BaseForBands: its statement about the sample baselines is proved about the frontend classifier's thresholds. The backend never classifies baselines itself.

Where the prose description and the code differ, the model follows the code:

- The prescription list sorts `status DESC`, which puts pending before dispensed.
- The patients PUT binds absent fields as NULL, and a NULL name or risk level is rejected by the engine.
- A failing pharmacy seed ends startup.
