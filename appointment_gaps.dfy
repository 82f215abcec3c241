/** Concrete stores on which the rescheduling route of the booking service,
    or the cascade of a patient's deletion, breaks slot/appointment duality,
    and requests on which the creation route links an appointment to another
    doctor's slot or insists on a date. Each lemma fixes the store and the
    request and states the outcome. */
module AppointmentGaps {
  import opened Base
  import opened Schema
  import opened Appointments
  import Patients

  /** Two booked slots of doctor 1, each held by one appointment: slot 1 by
      account 10's appointment 1, slot 2 by account 11's appointment 2. */
  function TwoBookings(): (t: Tables)
    ensures WellFormed(t) && SlotRefsResolve(t)
  {
    EmptyTables.(
      users := map[10 := Account(10, "Asha", "asha@example.com"), 11 := Account(11, "Meena", "meena@example.com")], userSeq := 11,
      doctors := map[1 := Doctor.Doctor(1, "Dr. Priya Sharma", "General Medicine")], doctorSeq := 1,
      slots := map[1 := Slot(1, 1, "2025-03-01", "09:00", "09:30", true),
                   2 := Slot(2, 1, "2025-03-01", "10:00", "10:30", true)], slotSeq := 2,
      appointments := map[1 := Appointment(1, None, Some(10), 1, Some(1), "2025-03-01", "scheduled"),
                          2 := Appointment(2, None, Some(11), 1, Some(2), "2025-03-01", "scheduled")],
      appointmentSeq := 2)
  }

  lemma TwoBookingsDual()
    ensures Duality(TwoBookings())
  {
    PairDual(TwoBookings());
  }

  /** Two booked slots 1 and 2, each referenced by the appointment of the
      same id and by no other: the duality holds. */
  lemma PairDual(t: Tables)
    requires t.slots.Keys == {1, 2} && t.slots[1].isBooked && t.slots[2].isBooked
    requires t.appointments.Keys == {1, 2}
    requires t.appointments[1].availabilityId == Some(1) && t.appointments[2].availabilityId == Some(2)
    ensures Duality(t)
  {
    OneRefers(t, 1, 1, 2);
    OneRefers(t, 2, 2, 1);
  }

  /** A patient who moves appointment 1 onto the booked slot 2 is refused with
      409, but slot 1 has already been freed: it stays referenced by
      appointment 1 while another booking may take it. */
  lemma PatientRescheduleFreesBeforeCheck()
    ensures var t := TwoBookings();
      var o := UpdateSpec(t, AuthUser(10, "Asha", "asha@example.com", Role.Patient), 1,
                          UpdateRequest(Undefined, Undefined, Given("2025-03-02"), Undefined, Given(2)));
      && Duality(t)
      && o.response == Failure(409, "New slot is already booked")
      && !o.after.slots[1].isBooked
      && 1 in Refs(o.after, 1)
      && !Duality(o.after)
  {
    TwoBookingsDual();
    var t := TwoBookings();
    var o := UpdateSpec(t, AuthUser(10, "Asha", "asha@example.com", Role.Patient), 1,
                        UpdateRequest(Undefined, Undefined, Given("2025-03-02"), Undefined, Given(2)));
    assert o.after.appointments == t.appointments;
    assert 1 in Refs(o.after, 1);
  }

  /** Staff who move appointment 1 onto the booked slot 2 succeed: slot 2 is
      then referenced by both appointments. */
  lemma StaffRescheduleDoubleBooks()
    ensures var t := TwoBookings();
      var o := UpdateSpec(t, AuthUser(1, "Super Admin", "admin@ruralcare.com", Role.Admin), 1,
                          UpdateRequest(Undefined, Undefined, Undefined, Undefined, Given(2)));
      && Duality(t)
      && o.response.Success?
      && Refs(o.after, 2) == {1, 2}
      && !Duality(o.after)
  {
    TwoBookingsDual();
    var t := TwoBookings();
    var o := UpdateSpec(t, AuthUser(1, "Super Admin", "admin@ruralcare.com", Role.Admin), 1,
                        UpdateRequest(Undefined, Undefined, Undefined, Undefined, Given(2)));
    StaffMoveOutcome();
    BothRefer(o.after, 2, 1, 2);
    assert 2 in o.after.slots;
  }

  /** The outcome of that move: success, appointment 1 pointing at slot 2,
      appointment 2 unchanged, the slot ids kept. */
  lemma StaffMoveOutcome()
    ensures var t := TwoBookings();
      var o := UpdateSpec(t, AuthUser(1, "Super Admin", "admin@ruralcare.com", Role.Admin), 1,
                          UpdateRequest(Undefined, Undefined, Undefined, Undefined, Given(2)));
      && o.response.Success?
      && o.after.slots.Keys == t.slots.Keys
      && o.after.appointments.Keys == {1, 2}
      && o.after.appointments[1].availabilityId == Some(2)
      && o.after.appointments[2].availabilityId == Some(2)
  {
    var t := TwoBookings();
    var admin := AuthUser(1, "Super Admin", "admin@ruralcare.com", Role.Admin);
    var req := UpdateRequest(Undefined, Undefined, Undefined, Undefined, Given(2));
    var moved := t.appointments[1].(availabilityId := Some(2));
    assert UpdatedRow(admin, t.appointments[1], req) == moved;
    assert ReachesUpdate(t, admin, 1, req);
    assert UpdateAccepted(t, admin, moved);
    StaffUpdateShape(t, admin, 1, req);
    UpdateFrame(t, admin, 1, req);
  }

  /** Two appointments that both point at slot s are both among its references. */
  lemma BothRefer(t: Tables, s: int, a: int, b: int)
    requires a != b && t.appointments.Keys == {a, b}
    requires t.appointments[a].availabilityId == Some(s) && t.appointments[b].availabilityId == Some(s)
    ensures Refs(t, s) == {a, b}
  {
  }

  /** An explicit `availability_id: null` frees slot 1, yet `?? existing`
      keeps appointment 1's reference to it. */
  lemma NullSlotFreesButKeepsReference()
    ensures var t := TwoBookings();
      var o := UpdateSpec(t, AuthUser(1, "Super Admin", "admin@ruralcare.com", Role.Admin), 1,
                          UpdateRequest(Undefined, Undefined, Undefined, Undefined, Null));
      && Duality(t)
      && o.response.Success?
      && o.response.body.availabilityId == Some(1)
      && !o.after.slots[1].isBooked
      && !Duality(o.after)
  {
    TwoBookingsDual();
    var t := TwoBookings();
    var o := UpdateSpec(t, AuthUser(1, "Super Admin", "admin@ruralcare.com", Role.Admin), 1,
                        UpdateRequest(Undefined, Undefined, Undefined, Undefined, Null));
    NullSlotOutcome();
    OneRefers(o.after, 1, 1, 2);
    assert 1 in o.after.slots;
  }

  /** The outcome of that request: success, slot 1 freed, appointment 1
      still pointing at slot 1 and appointment 2 at slot 2. */
  lemma NullSlotOutcome()
    ensures var t := TwoBookings();
      var o := UpdateSpec(t, AuthUser(1, "Super Admin", "admin@ruralcare.com", Role.Admin), 1,
                          UpdateRequest(Undefined, Undefined, Undefined, Undefined, Null));
      && o.response.Success?
      && o.response.body.availabilityId == Some(1)
      && o.after.slots.Keys == t.slots.Keys && !o.after.slots[1].isBooked
      && o.after.appointments.Keys == {1, 2}
      && o.after.appointments[1].availabilityId == Some(1)
      && o.after.appointments[2].availabilityId == Some(2)
  {
    var t := TwoBookings();
    var admin := AuthUser(1, "Super Admin", "admin@ruralcare.com", Role.Admin);
    var req := UpdateRequest(Undefined, Undefined, Undefined, Undefined, Null);
    assert UpdatedRow(admin, t.appointments[1], req) == t.appointments[1];
    assert ReachesUpdate(t, admin, 1, req);
    assert UpdateAccepted(t, admin, t.appointments[1]);
    UpdateSuccessShape(t, admin, 1, req);
    UpdateFrame(t, admin, 1, req);
    ExchangeAt(t, Some(1), Null, 1);
  }

  /** Of two appointments, only the one pointing at slot s refers to it. */
  lemma OneRefers(t: Tables, s: int, a: int, b: int)
    requires a != b && t.appointments.Keys == {a, b}
    requires t.appointments[a].availabilityId == Some(s) && t.appointments[b].availabilityId != Some(s)
    ensures Refs(t, s) == {a}
  {
  }

  /** Staff who move appointment 1 to slot 5, which does not exist, free
      slot 1 and then have the UPDATE refused by the foreign key: the 500
      leaves slot 1 free and still referenced. */
  lemma StaffMissingSlotFreesBeforeFailure()
    ensures var t := TwoBookings();
      var o := UpdateSpec(t, AuthUser(1, "Super Admin", "admin@ruralcare.com", Role.Admin), 1,
                          UpdateRequest(Undefined, Undefined, Undefined, Undefined, Given(5)));
      && Duality(t)
      && o.response == Failure(500, INTERNAL_ERROR)
      && !o.after.slots[1].isBooked
      && 1 in Refs(o.after, 1)
      && !Duality(o.after)
  {
    TwoBookingsDual();
    var t := TwoBookings();
    var o := UpdateSpec(t, AuthUser(1, "Super Admin", "admin@ruralcare.com", Role.Admin), 1,
                        UpdateRequest(Undefined, Undefined, Undefined, Undefined, Given(5)));
    assert o.after.appointments == t.appointments;
    assert 1 in Refs(o.after, 1);
  }

  /** A patient who sends `availability_id: 0` skips the slot lookup (0 is
      falsy) after freeing slot 1; the UPDATE then writes slot id 0, which
      no slot has, and is refused with 500, leaving slot 1 free and still
      referenced. */
  lemma PatientZeroSlotFreesBeforeFailure()
    ensures var t := TwoBookings();
      var o := UpdateSpec(t, AuthUser(10, "Asha", "asha@example.com", Role.Patient), 1,
                          UpdateRequest(Undefined, Undefined, Given("2025-03-02"), Undefined, Given(0)));
      && Duality(t)
      && o.response == Failure(500, INTERNAL_ERROR)
      && !o.after.slots[1].isBooked
      && 1 in Refs(o.after, 1)
      && !Duality(o.after)
  {
    TwoBookingsDual();
    var t := TwoBookings();
    var o := UpdateSpec(t, AuthUser(10, "Asha", "asha@example.com", Role.Patient), 1,
                        UpdateRequest(Undefined, Undefined, Given("2025-03-02"), Undefined, Given(0)));
    assert o.after.appointments == t.appointments;
    assert 1 in Refs(o.after, 1);
  }

  /** POST / with `availability_id: 0` skips the slot checks, and the INSERT
      of slot id 0 is refused by the foreign key: 500, nothing written. */
  lemma CreateZeroSlotFails()
    ensures var t := TwoBookings();
      var o := CreateSpec(t, AuthUser(10, "Asha", "asha@example.com", Role.Patient),
                          CreateRequest(Given(1), Given("2025-03-02"), Undefined, Given(0), Undefined));
      o == Outcome(Failure(500, INTERNAL_ERROR), t)
  {
  }

  /** POST / demands a date even when a slot, which carries its own date,
      is chosen. */
  lemma CreateWithSlotNeedsDate()
    ensures var t := TwoBookings().(slots := TwoBookings().slots[2 := TwoBookings().slots[2].(isBooked := false)]);
      var o := CreateSpec(t, AuthUser(1, "Super Admin", "admin@ruralcare.com", Role.Admin),
                          CreateRequest(Given(1), Undefined, Undefined, Given(2), Undefined));
      && o == Outcome(Failure(400, "doctor_id and date are required"), t)
      && 2 in t.slots && !t.slots[2].isBooked
  {
  }

  /** A patient's account of the fixtures. */
  function Account(id: int, name: string, email: string): User {
    User(id, name, email, "$2a$10$hash", Role.Patient, "2025-01-01 00:00:00")
  }

  /** Deleting patient 5 cascades to appointment 1, which held slot 1; the
      slot stays booked with no appointment referencing it. */
  lemma PatientDeleteStrandsSlot()
    ensures var t := TwoBookings().(
              patients := map[5 := Schema.Patient.Patient(5, None, "Ramesh", None, None, None, None, None, "low", "2025-01-01 00:00:00")],
              patientSeq := 5,
              appointments := TwoBookings().appointments[1 := TwoBookings().appointments[1].(patientId := Some(5))]);
      var o := Patients.DeleteSpec(t, 5);
      && Duality(t)
      && o.response.Success?
      && o.after.slots[1].isBooked
      && Refs(o.after, 1) == {}
      && !Duality(o.after)
  {
    var t := TwoBookings().(
              patients := map[5 := Schema.Patient.Patient(5, None, "Ramesh", None, None, None, None, None, "low", "2025-01-01 00:00:00")],
              patientSeq := 5,
              appointments := TwoBookings().appointments[1 := TwoBookings().appointments[1].(patientId := Some(5))]);
    var o := Patients.DeleteSpec(t, 5);
    LinkedDeleteOutcome();
    assert 1 in o.after.slots;
    assert Refs(o.after, 1) == {};
  }

  /** In that store the duality holds; deleting patient 5 succeeds, removes
      appointment 1 and leaves the slots and appointment 2 as they were. */
  lemma LinkedDeleteOutcome()
    ensures var t := TwoBookings().(
              patients := map[5 := Schema.Patient.Patient(5, None, "Ramesh", None, None, None, None, None, "low", "2025-01-01 00:00:00")],
              patientSeq := 5,
              appointments := TwoBookings().appointments[1 := TwoBookings().appointments[1].(patientId := Some(5))]);
      var o := Patients.DeleteSpec(t, 5);
      && Duality(t)
      && o.response.Success?
      && o.after.slots == t.slots && t.slots[1].isBooked
      && o.after.appointments.Keys == {2}
      && o.after.appointments[2].availabilityId == Some(2)
  {
    var t := TwoBookings().(
              patients := map[5 := Schema.Patient.Patient(5, None, "Ramesh", None, None, None, None, None, "low", "2025-01-01 00:00:00")],
              patientSeq := 5,
              appointments := TwoBookings().appointments[1 := TwoBookings().appointments[1].(patientId := Some(5))]);
    PairDual(t);
    var o := Patients.DeleteSpec(t, 5);
    assert 1 !in o.after.appointments;
  }

  /** POST / checks that the slot exists and is free, not that it belongs to
      the requested doctor: booking doctor 1 on doctor 2's slot succeeds. */
  lemma CreateIgnoresSlotDoctor()
    ensures var t := EmptyTables.(
              users := map[10 := Account(10, "Asha", "asha@example.com")], userSeq := 10,
              doctors := map[1 := Doctor.Doctor(1, "Dr. Priya Sharma", "General Medicine"),
                             2 := Doctor.Doctor(2, "Dr. Ravi Kumar", "Pediatrics")], doctorSeq := 2,
              slots := map[1 := Slot(1, 2, "2025-03-01", "09:00", "09:30", false)], slotSeq := 1);
      var o := CreateSpec(t, AuthUser(10, "Asha", "asha@example.com", Role.Patient),
                          CreateRequest(Given(1), Given("2025-03-01"), Undefined, Given(1), Undefined));
      && o.response.Success?
      && o.response.body.doctorId == 1
      && o.after.slots[1].doctorId == 2
      && o.after.slots[1].isBooked
  {
  }
}
